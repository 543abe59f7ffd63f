/** The data-phase invariant between two endpoints and the branches of control_loop that keep it. */
module StcpLink {
  import opened Bytes
  import opened PacketQueueSpec
  import opened StcpTypes
  import opened StcpSteps
  import opened StcpSystem
  import opened StcpChannel

  const MAX_CWND: nat := MSS * MSS + 1

  predicate FinSent(e: Endpoint) {
    if e.isClient then e.conn == FinWait1 || e.conn == FinWait2 || e.conn == Closed
    else e.conn == LastAck || e.conn == Closed
  }

  predicate FinReceived(e: Endpoint) {
    if e.isClient then e.conn == Closed
    else e.conn == CloseWait || e.conn == LastAck || e.conn == Closed
  }

  function One(b: bool): nat { if b then 1 else 0 }

  /** Window accounting: rem never wraps and the buffer is exactly as long as the window. */
  predicate Windowed(e: Endpoint) {
    && e.Running()
    && e.recvWin == RECV_WINDOW_SIZE
    && MSS <= e.cwnd <= MAX_CWND
    && e.swnd == Min(e.cwnd, RECV_WINDOW_SIZE)
    && |e.buffer| == e.swnd
    && ISN <= e.sendBase <= e.next <= e.sendBase + e.swnd
    && e.next < W32
    && e.rem == e.swnd - (e.next - e.sendBase)
  }

  predicate Full(q: Blocks) {
    forall i | 0 <= i < |q| :: q[i] != []
  }

  /** Blocks waiting for myread: non-empty data, then one empty block once the peer's FIN is in,
      until myread has taken it. */
  predicate EofMarked(q: Blocks, fin: bool, eof: bool) {
    if !fin then !eof && Full(q)
    else if eof then q == []
    else q != [] && q[|q| - 1] == [] && Full(q[..|q| - 1])
  }

  /** Bytes from `x` to `y`: what y received, what is in flight, what waits in x's queue. */
  ghost predicate Stream(nonEmpty: bool, x: Endpoint, xa: App, y: Endpoint, ya: App, iy: seq<Packet>) {
    && xa.written == Received(y, ya) + Payload(iy) + Flat(x.appRecvQ)
    && |xa.written| < W32 - 2
    && (nonEmpty ==> Full(x.appRecvQ))
    && AllShaped(nonEmpty, iy)
    && Numbered(iy, ISN + |Received(y, ya)|)
    && x.next == ISN + |Received(y, ya)| + |Payload(iy)| + One(FinSent(x))
    && y.recvBase == ISN + |Received(y, ya)| + One(FinReceived(y))
    && EofMarked(y.appSendQ, FinReceived(y), ya.eof)
  }

  /** The window buffer starts with the bytes sent and not yet acknowledged. */
  predicate Buffered(x: Endpoint, xa: App) {
    var upto := x.next - One(FinSent(x));
    && ISN <= x.sendBase <= upto
    && upto - x.sendBase <= |x.buffer|
    && upto - ISN <= |xa.written|
    && x.buffer[..upto - x.sendBase] == xa.written[x.sendBase - ISN..upto - ISN]
  }

  /** Acknowledgements of x's data on their way back. */
  predicate Acks(nonEmpty: bool, x: Endpoint, y: Endpoint, ix: seq<Packet>) {
    FinReceived(y) || AckChain(nonEmpty, ix, x.sendBase, y.recvBase)
  }

  /** Everything about the data of one direction. */
  ghost predicate Direction(nonEmpty: bool, x: Endpoint, xa: App, y: Endpoint, ya: App, ix: seq<Packet>, iy: seq<Packet>) {
    && Windowed(x)
    && Stream(nonEmpty, x, xa, y, ya, iy)
    && Buffered(x, xa)
    && Acks(nonEmpty, x, y, ix)
  }

  ghost predicate Link(nonEmpty: bool, x: Endpoint, xa: App, y: Endpoint, ya: App, ix: seq<Packet>, iy: seq<Packet>) {
    && Direction(nonEmpty, x, xa, y, ya, ix, iy)
    && Direction(nonEmpty, y, ya, x, xa, iy, ix)
  }

  /** Fields a branch of the other direction may not touch. */
  predicate SameSender(x: Endpoint, x': Endpoint) {
    x' == x.(recvBase := x'.recvBase, appSendQ := x'.appSendQ, netQ := x'.netQ)
  }

  // ----- APP_DATA ----------------------------------------------------------------------------

  lemma WrapIsIdentity(n: nat)
    ensures n < W64 ==> Wrap64(n) == n
    ensures n < W32 ==> Wrap32(n) == n
  {
  }

  lemma SendDataKeepsWindow(x: Endpoint)
    requires Windowed(x) && x.appRecvQ != []
    ensures x.rem == 0 ==> SendData(x) == Effect(x, [])
    ensures var f := SendData(x); var t := TakePartial(x.appRecvQ, Min(x.rem, MSS));
            x.rem > 0 ==>
              && |t.bytes| == Min(Min(x.rem, 536), |x.appRecvQ[0]|)
              && x.next - x.sendBase + |t.bytes| <= |x.buffer|
              && f.sent == [Packet(x.next, 0, TH_DATA, t.bytes)]
              && f.e == x.(appRecvQ := t.rest, next := x.next + |t.bytes|, rem := x.rem - |t.bytes|,
                           buffer := Splice(x.buffer, x.next - x.sendBase, t.bytes))
  {
    hide Wrap64, Wrap32, Splice, TakePartial, Flat;
    if x.rem > 0 {
      var t := TakePartial(x.appRecvQ, Min(x.rem, MSS));
      TakeSplits(x.appRecvQ, Min(x.rem, MSS));
      WrapIsIdentity(x.next);
      WrapIsIdentity(x.next + |t.bytes|);
      WrapIsIdentity(x.rem - |t.bytes|);
      assert x.swnd - (x.next + |t.bytes| - x.sendBase) == x.rem - |t.bytes|;
    }
  }

  lemma SendDataKeepsStream(nonEmpty: bool, x: Endpoint, xa: App, y: Endpoint, ya: App, iy: seq<Packet>)
    requires Windowed(x) && Stream(nonEmpty, x, xa, y, ya, iy)
    requires x.appRecvQ != [] && !FinSent(x) && !FinReceived(y) && x.rem > 0
    ensures var f := SendData(x); Stream(nonEmpty, f.e, xa, y, ya, iy + f.sent) && f.e.next < W32
  {
    hide SendData, TakePartial, Splice, Payload, EofMarked;
    var t := TakePartial(x.appRecvQ, Min(x.rem, MSS));
    TakeSplits(x.appRecvQ, Min(x.rem, MSS));
    SendDataKeepsWindow(x);
    var f := SendData(x);
    var p := f.sent[0];
    PayloadPush(iy, p);
    assert xa.written == Received(y, ya) + Payload(iy + [p]) + Flat(t.rest);
    NumberedPush(iy, ISN + |Received(y, ya)|, p);
    assert nonEmpty ==> x.appRecvQ[0] != [];
    assert nonEmpty ==> Full(t.rest) by { FullRest(x.appRecvQ, Min(x.rem, MSS)); }
  }

  lemma FullRest(q: Blocks, max: nat)
    requires q != []
    ensures Full(q) ==> Full(TakePartial(q, max).rest)
  {
  }

  lemma SendDataKeepsBuffer(x: Endpoint, xa: App, got: seq<byte>, rest: seq<byte>, next': nat)
    requires Windowed(x) && Buffered(x, xa) && !FinSent(x)
    requires next' == x.next + |got| && x.next - x.sendBase + |got| <= |x.buffer|
    requires xa.written[x.next - ISN..] == got + rest
    ensures Buffered(x.(buffer := Splice(x.buffer, x.next - x.sendBase, got), next := next'), xa)
  {
    var w := xa.written;
    var n := x.next - ISN;
    SpliceExtends(x.buffer, x.next - x.sendBase, got, w[x.sendBase - ISN..n]);
    assert |got| <= |w[n..]|;
    assert w[n..n + |got|] == w[n..][..|got|] == got;
    assert w[x.sendBase - ISN..n + |got|] == w[x.sendBase - ISN..n] + w[n..n + |got|];
  }

  lemma SendDataKeepsSender(nonEmpty: bool, x: Endpoint, xa: App, y: Endpoint, ya: App, ix: seq<Packet>, iy: seq<Packet>)
    requires Direction(nonEmpty, x, xa, y, ya, ix, iy)
    requires x.appRecvQ != [] && !FinSent(x) && !FinReceived(y)
    ensures var f := SendData(x); Direction(nonEmpty, f.e, xa, y, ya, ix, iy + f.sent)
  {
    hide TakePartial, SendData, Splice, Stream, AckChain;
    SendDataKeepsWindow(x);
    if x.rem == 0 {
      assert iy + [] == iy;
    } else {
      SendDataKeepsStream(nonEmpty, x, xa, y, ya, iy);
      var t := TakePartial(x.appRecvQ, Min(x.rem, MSS));
      TakeSplits(x.appRecvQ, Min(x.rem, MSS));
      var f := SendData(x);
      Unsent(nonEmpty, x, xa, y, ya, iy);
      SendDataKeepsBuffer(x, xa, t.bytes, Flat(t.rest), f.e.next);
      assert Acks(nonEmpty, f.e, y, ix);
    }
  }

  /** What waits in the application's queue is the part of the stream from next_seqnum on. */
  lemma Unsent(nonEmpty: bool, x: Endpoint, xa: App, y: Endpoint, ya: App, iy: seq<Packet>)
    requires Stream(nonEmpty, x, xa, y, ya, iy) && !FinSent(x) && x.next >= ISN
    ensures x.next - ISN <= |xa.written| && xa.written[x.next - ISN..] == Flat(x.appRecvQ)
  {
    var front := Received(y, ya) + Payload(iy);
    assert xa.written == front + Flat(x.appRecvQ);
  }

  lemma SpliceExtends(buffer: seq<byte>, off: nat, data: seq<byte>, front: seq<byte>)
    requires off + |data| <= |buffer| && buffer[..off] == front
    ensures Splice(buffer, off, data)[..off + |data|] == front + data
  {
  }

  lemma AckBoundsFor(nonEmpty: bool, x: Endpoint, y: Endpoint, ix: seq<Packet>)
    requires Acks(nonEmpty, x, y, ix) && !FinReceived(y)
    ensures x.sendBase <= y.recvBase
    ensures forall i | 0 <= i < |ix| && ix[i].flags == TH_ACK :: x.sendBase <= ix[i].ack <= y.recvBase
  {
    AckChainBounds(nonEmpty, ix, x.sendBase, y.recvBase);
  }

  /** What sending touches. */
  lemma SendDataFrame(x: Endpoint)
    requires x.appRecvQ != []
    ensures var f := SendData(x);
            && f.e == x.(appRecvQ := f.e.appRecvQ, buffer := f.e.buffer, next := f.e.next, rem := f.e.rem, fault := f.e.fault)
            && (f.sent == [] || (|f.sent| == 1 && f.sent[0].flags == TH_DATA))
  {
    hide TakePartial, Splice, Wrap64, Wrap32, Remaining;
  }

  /** A data segment leaves the acknowledgements of the other direction alone. */
  lemma SendDataKeepsReceiver(nonEmpty: bool, x: Endpoint, xa: App, y: Endpoint, ya: App, ix: seq<Packet>, iy: seq<Packet>)
    requires Direction(nonEmpty, y, ya, x, xa, iy, ix)
    requires x.appRecvQ != [] && !FinReceived(x) && !FinSent(x)
    ensures var f := SendData(x); Direction(nonEmpty, y, ya, f.e, xa, iy + f.sent, ix)
  {
    hide SendData;
    var f := SendData(x);
    SendDataFrame(x);
    if f.sent != [] {
      AckChainPush(nonEmpty, iy, y.sendBase, x.recvBase, f.sent[0]);
      assert f.sent == [f.sent[0]];
    } else {
      assert iy + [] == iy;
    }
  }

  /** A packet without data can leave the channel unnoticed by the stream. */
  lemma DropEmptyHead(nonEmpty: bool, x: Endpoint, xa: App, y: Endpoint, ya: App, iy: seq<Packet>)
    requires Stream(nonEmpty, x, xa, y, ya, iy)
    requires iy != [] && !IsData(iy[0])
    ensures Stream(nonEmpty, x, xa, y, ya, iy[1..])
  {
    assert WellShaped(nonEmpty, iy[0]);
    assert Payload(iy) == Payload(iy[1..]);
    assert Numbered(iy[1..], ISN + |Received(y, ya)|);
  }

  // ----- TH_ACK ------------------------------------------------------------------------------

  /** One acknowledgement never shrinks the congestion window nor lifts it past MSS*MSS+1. */
  lemma GrowCwndBounds(cwnd: nat)
    requires MSS <= cwnd <= MAX_CWND
    ensures cwnd <= GrowCwnd(cwnd) <= MAX_CWND
  {
    if cwnd >= 4 * MSS && cwnd <= MSS * MSS {
      var q := MSS * MSS / cwnd;
      assert q * cwnd <= MSS * MSS;
      assert q >= 1;
      // (cwnd - 1) * (q - 1) >= 0
      MulNonNegative(cwnd - 1, q - 1);
      assert (cwnd - 1) * (q - 1) == cwnd * q - cwnd - q + 1;
    } else if cwnd == MAX_CWND {
      assert MSS * MSS / MAX_CWND == 0;
    }
  }

  lemma MulNonNegative(a: nat, b: nat)
    ensures a * b >= 0
  {
  }

  lemma RecvAckKeepsWindow(x: Endpoint, p: Packet)
    requires Windowed(x) && x.sendBase <= p.ack <= x.next
    ensures var e := RecvAck(x, p);
            && Windowed(e)
            && e.sendBase == p.ack
            && x.swnd <= e.swnd
            && p.ack - x.sendBase <= x.swnd
            && e == x.(sendBase := e.sendBase, cwnd := e.cwnd, swnd := e.swnd, rem := e.rem, buffer := e.buffer)
            && e.buffer == x.buffer[p.ack - x.sendBase..x.swnd] + Zeros(e.swnd - (x.swnd - (p.ack - x.sendBase)))
  {
    GrowCwndBounds(x.cwnd);
    var swnd := Min(GrowCwnd(x.cwnd), RECV_WINDOW_SIZE);
    WrapIsIdentity(p.ack - x.sendBase);
    WrapIsIdentity(swnd - (x.next - p.ack));
    hide Wrap64;
    hide GrowCwnd;
  }

  lemma RecvAckKeepsBuffer(x: Endpoint, xa: App, p: Packet)
    requires Windowed(x) && Buffered(x, xa) && !FinSent(x) && x.sendBase <= p.ack <= x.next
    ensures Buffered(RecvAck(x, p), xa)
  {
    hide RecvAck;
    RecvAckKeepsWindow(x, p);
    var k := p.ack - x.sendBase;
    var n := x.next - x.sendBase;
    var w := RecvAck(x, p).swnd - (x.swnd - k);
    ShiftedPrefix(x.buffer, k, n, x.swnd, Zeros(w));
    ShiftedSlice(xa.written, x.sendBase - ISN, x.next - ISN, k);
    hide Zeros;
  }

  lemma ShiftedPrefix(b: seq<byte>, k: nat, n: nat, upto: nat, z: seq<byte>)
    requires k <= n <= upto <= |b|
    ensures (b[k..upto] + z)[..n - k] == b[..n][k..]
  {
  }

  lemma ShiftedSlice(b: seq<byte>, lo: nat, hi: nat, k: nat)
    requires lo + k <= hi <= |b|
    ensures b[lo + k..hi] == b[lo..hi][k..]
  {
  }

  lemma RecvAckKeepsSender(nonEmpty: bool, x: Endpoint, xa: App, y: Endpoint, ya: App, ix: seq<Packet>, iy: seq<Packet>)
    requires Direction(nonEmpty, x, xa, y, ya, ix, iy)
    requires ix != [] && ix[0].flags == TH_ACK && !FinSent(x) && !FinReceived(y)
    ensures Direction(nonEmpty, RecvAck(x, ix[0]), xa, y, ya, ix[1..], iy)
  {
    AckBoundsFor(nonEmpty, x, y, ix);
    assert y.recvBase <= x.next;
    RecvAckKeepsWindow(x, ix[0]);
    RecvAckKeepsBuffer(x, xa, ix[0]);
  }

  lemma RecvAckKeepsReceiver(nonEmpty: bool, x: Endpoint, xa: App, y: Endpoint, ya: App, ix: seq<Packet>, iy: seq<Packet>)
    requires Direction(nonEmpty, y, ya, x, xa, iy, ix)
    requires Windowed(x) && ix != [] && ix[0].flags == TH_ACK && x.sendBase <= ix[0].ack <= x.next
    ensures Direction(nonEmpty, y, ya, RecvAck(x, ix[0]), xa, iy, ix[1..])
  {
    RecvAckKeepsWindow(x, ix[0]);
    hide RecvAck;
    DropEmptyHead(nonEmpty, y, ya, x, xa, ix);
    hide Payload;
    hide Numbered;
    hide Windowed;
  }

  // ----- data --------------------------------------------------------------------------------

  lemma RecvDataEffect(x: Endpoint, xa: App, p: Packet)
    requires |p.payload| <= MSS && p.seqno == x.recvBase && x.recvBase + |p.payload| < W32
    ensures var f := RecvData(x, p);
            && f.sent == [Packet(f.e.recvBase, f.e.recvBase, TH_ACK, [])]
            && f.e == x.(recvBase := x.recvBase + |p.payload|,
                         appSendQ := x.appSendQ + if p.payload == [] then [] else [p.payload])
            && SameSender(x, f.e) && f.e.netQ == x.netQ
            && Received(f.e, xa) == Received(x, xa) + p.payload
            && (Full(x.appSendQ) ==> Full(f.e.appSendQ))
  {
    var n := x.recvBase + |p.payload|;
    assert Wrap64(n) == n && Wrap32(n) == n;
    FlatPush(x.appSendQ, p.payload);
    assert xa.read + (Flat(x.appSendQ) + p.payload) == Received(x, xa) + p.payload;
  }

  /** The segment at the head of the line is the one the receiver expects next. */
  lemma HeadIsNext(nonEmpty: bool, x: Endpoint, xa: App, y: Endpoint, ya: App, ix: seq<Packet>)
    requires Stream(nonEmpty, y, ya, x, xa, ix) && y.next < W32
    requires ix != [] && IsData(ix[0]) && !FinReceived(x)
    ensures var p := ix[0];
            && |p.payload| <= MSS && p.seqno == x.recvBase && x.recvBase + |p.payload| <= y.next < W32
            && WellShaped(nonEmpty, p)
            && Payload(ix) == p.payload + Payload(ix[1..])
  {
    assert WellShaped(nonEmpty, ix[0]);
  }

  lemma RecvDataKeepsStream(nonEmpty: bool, x: Endpoint, xa: App, y: Endpoint, ya: App, ix: seq<Packet>)
    requires Stream(nonEmpty, y, ya, x, xa, ix) && y.next < W32
    requires ix != [] && IsData(ix[0]) && !FinReceived(x)
    ensures Stream(nonEmpty, y, ya, RecvData(x, ix[0]).e, xa, ix[1..])
  {
    HeadIsNext(nonEmpty, x, xa, y, ya, ix);
    RecvDataEffect(x, xa, ix[0]);
    var e := RecvData(x, ix[0]).e;
    var p := ix[0];
    assert Received(x, xa) + (p.payload + Payload(ix[1..])) + Flat(y.appRecvQ)
        == Received(e, xa) + Payload(ix[1..]) + Flat(y.appRecvQ);
    assert |Received(e, xa)| == |Received(x, xa)| + |p.payload|;
    assert Numbered(ix[1..], ISN + |Received(x, xa)| + |p.payload|);
    assert !FinReceived(e);
  }

  lemma RecvDataKeepsReceiver(nonEmpty: bool, x: Endpoint, xa: App, y: Endpoint, ya: App, ix: seq<Packet>, iy: seq<Packet>)
    requires Direction(nonEmpty, y, ya, x, xa, iy, ix)
    requires ix != [] && IsData(ix[0]) && !FinReceived(x)
    ensures var f := RecvData(x, ix[0]); Direction(nonEmpty, y, ya, f.e, xa, iy + f.sent, ix[1..])
  {
    HeadIsNext(nonEmpty, x, xa, y, ya, ix);
    RecvDataEffect(x, xa, ix[0]);
    RecvDataKeepsStream(nonEmpty, x, xa, y, ya, ix);
    var f := RecvData(x, ix[0]);
    assert nonEmpty ==> ix[0].payload != [];
    AckChainPush(nonEmpty, iy, y.sendBase, x.recvBase, f.sent[0]);
  }

  lemma RecvDataKeepsSender(nonEmpty: bool, x: Endpoint, xa: App, y: Endpoint, ya: App, ix: seq<Packet>, iy: seq<Packet>)
    requires Direction(nonEmpty, x, xa, y, ya, ix, iy)
    requires Stream(nonEmpty, y, ya, x, xa, ix) && Windowed(y)
    requires ix != [] && IsData(ix[0]) && !FinReceived(x)
    ensures var f := RecvData(x, ix[0]); Direction(nonEmpty, f.e, xa, y, ya, ix[1..], iy + f.sent)
  {
    HeadIsNext(nonEmpty, x, xa, y, ya, ix);
    RecvDataEffect(x, xa, ix[0]);
    var f := RecvData(x, ix[0]);
    PushQuiet(nonEmpty, x, xa, y, ya, iy, f.sent[0]);
    assert !FinReceived(y) ==> AckChain(nonEmpty, ix[1..], x.sendBase, y.recvBase);
  }

  /** A bare ACK or FIN adds nothing to the stream of the side that sends it. */
  lemma PushQuiet(nonEmpty: bool, x: Endpoint, xa: App, y: Endpoint, ya: App, iy: seq<Packet>, p: Packet)
    requires Stream(nonEmpty, x, xa, y, ya, iy)
    requires WellShaped(nonEmpty, p) && !IsData(p)
    ensures Stream(nonEmpty, x, xa, y, ya, iy + [p])
  {
    PayloadPush(iy, p);
    NumberedPush(iy, ISN + |Received(y, ya)|, p);
    assert forall q <- iy + [p] :: q in iy || q == p;
  }

  // ----- both directions together ------------------------------------------------------------

  lemma SendDataKeepsLink(nonEmpty: bool, x: Endpoint, xa: App, y: Endpoint, ya: App, ix: seq<Packet>, iy: seq<Packet>)
    requires Link(nonEmpty, x, xa, y, ya, ix, iy)
    requires x.appRecvQ != [] && !FinSent(x) && !FinReceived(x) && !FinReceived(y)
    ensures var f := SendData(x); Link(nonEmpty, f.e, xa, y, ya, ix, iy + f.sent)
  {
    SendDataKeepsSender(nonEmpty, x, xa, y, ya, ix, iy);
    SendDataKeepsReceiver(nonEmpty, x, xa, y, ya, ix, iy);
  }

  lemma RecvAckKeepsLink(nonEmpty: bool, x: Endpoint, xa: App, y: Endpoint, ya: App, ix: seq<Packet>, iy: seq<Packet>)
    requires Link(nonEmpty, x, xa, y, ya, ix, iy)
    requires ix != [] && ix[0].flags == TH_ACK && !FinSent(x) && !FinReceived(y)
    ensures Link(nonEmpty, RecvAck(x, ix[0]), xa, y, ya, ix[1..], iy)
  {
    AckBoundsFor(nonEmpty, x, y, ix);
    RecvAckKeepsSender(nonEmpty, x, xa, y, ya, ix, iy);
    RecvAckKeepsReceiver(nonEmpty, x, xa, y, ya, ix, iy);
  }

  lemma RecvDataKeepsLink(nonEmpty: bool, x: Endpoint, xa: App, y: Endpoint, ya: App, ix: seq<Packet>, iy: seq<Packet>)
    requires Link(nonEmpty, x, xa, y, ya, ix, iy)
    requires ix != [] && IsData(ix[0]) && !FinReceived(x)
    ensures var f := RecvData(x, ix[0]); Link(nonEmpty, f.e, xa, y, ya, ix[1..], iy + f.sent)
  {
    RecvDataKeepsSender(nonEmpty, x, xa, y, ya, ix, iy);
    RecvDataKeepsReceiver(nonEmpty, x, xa, y, ya, ix, iy);
  }

  // ----- the applications --------------------------------------------------------------------

  lemma WriteKeepsStream(nonEmpty: bool, x: Endpoint, xa: App, y: Endpoint, ya: App, iy: seq<Packet>, data: seq<byte>)
    requires Stream(nonEmpty, x, xa, y, ya, iy)
    requires (nonEmpty ==> data != []) && |xa.written| + |data| < W32 - 2
    ensures Stream(nonEmpty, x.(appRecvQ := x.appRecvQ + [data]), xa.(written := xa.written + data), y, ya, iy)
  {
    hide Numbered, Received, Payload, AllShaped, EofMarked, Flat;
    FlatPush(x.appRecvQ, data);
  }

  lemma WriteKeepsSender(nonEmpty: bool, x: Endpoint, xa: App, y: Endpoint, ya: App, ix: seq<Packet>, iy: seq<Packet>, data: seq<byte>)
    requires Direction(nonEmpty, x, xa, y, ya, ix, iy)
    requires (nonEmpty ==> data != []) && |xa.written| + |data| < W32 - 2
    ensures Direction(nonEmpty, x.(appRecvQ := x.appRecvQ + [data]), xa.(written := xa.written + data), y, ya, ix, iy)
  {
    var xa' := xa.(written := xa.written + data);
    var x' := x.(appRecvQ := x.appRecvQ + [data]);
    assert Stream(nonEmpty, x', xa', y, ya, iy) by {
      WriteKeepsStream(nonEmpty, x, xa, y, ya, iy, data);
    }
    hide Stream, FinSent, FinReceived, AckChain;
    var n := x.next - One(FinSent(x)) - ISN;
    assert xa'.written[x.sendBase - ISN..n] == xa.written[x.sendBase - ISN..n];
  }

  lemma WriteKeepsReceiver(nonEmpty: bool, x: Endpoint, xa: App, y: Endpoint, ya: App, ix: seq<Packet>, iy: seq<Packet>, data: seq<byte>)
    requires Direction(nonEmpty, y, ya, x, xa, iy, ix)
    ensures Direction(nonEmpty, y, ya, x.(appRecvQ := x.appRecvQ + [data]), xa.(written := xa.written + data), iy, ix)
  {
  }

  lemma WriteKeepsLink(nonEmpty: bool, x: Endpoint, xa: App, y: Endpoint, ya: App, ix: seq<Packet>, iy: seq<Packet>, data: seq<byte>)
    requires Link(nonEmpty, x, xa, y, ya, ix, iy)
    requires (nonEmpty ==> data != []) && |xa.written| + |data| < W32 - 2
    ensures Link(nonEmpty, x.(appRecvQ := x.appRecvQ + [data]), xa.(written := xa.written + data), y, ya, ix, iy)
  {
    hide Direction;
    WriteKeepsSender(nonEmpty, x, xa, y, ya, ix, iy, data);
    WriteKeepsReceiver(nonEmpty, x, xa, y, ya, ix, iy, data);
  }

  /** Taking from the front of a queue that ends in the marker leaves such a queue, or nothing. */
  lemma MarkerStays(q: Blocks, max: nat)
    requires EofMarked(q, true, false) && max > 0
    ensures var t := TakePartial(q, max);
            && (t.bytes == [] <==> q == [[]])
            && EofMarked(t.rest, true, t.bytes == [])
  {
    var t := TakePartial(q, max);
    if |q| > 1 {
      assert q[0] == q[..|q| - 1][0];
      var n := |t.rest| - 1;
      if |q[0]| > max {
        assert t.rest[..n] == [q[0][max..]] + q[..|q| - 1][1..];
      } else {
        assert t.rest[..n] == q[..|q| - 1][1..];
      }
    }
  }

  /** myread moves bytes from the queue to the application; the bytes received stay the same, and it
      returns 0 exactly when it meets the marker left by the peer's FIN. */
  lemma ReadStepEffect(x: End, max: nat)
    requires max > 0 && (x.a.eof || x.e.appSendQ != [])
    requires EofMarked(x.e.appSendQ, FinReceived(x.e), x.a.eof)
    ensures var y := ReadStep(x, max);
            && Received(y.e, y.a) == Received(x.e, x.a)
            && EofMarked(y.e.appSendQ, FinReceived(y.e), y.a.eof)
            && (y.a.eof && !x.a.eof ==> x.e.appSendQ == [[]] && FinReceived(x.e))
            && y == x.(e := x.e.(appSendQ := y.e.appSendQ), a := x.a.(read := y.a.read, eof := y.a.eof))
  {
    if !x.a.eof {
      var t := TakePartial(x.e.appSendQ, max);
      TakeSplits(x.e.appSendQ, max);
      assert x.a.read + (t.bytes + Flat(t.rest)) == x.a.read + t.bytes + Flat(t.rest);
      if FinReceived(x.e) {
        MarkerStays(x.e.appSendQ, max);
      } else {
        FullRest(x.e.appSendQ, max);
      }
    }
    hide TakePartial;
  }

  lemma ReadKeepsSender(nonEmpty: bool, x: Endpoint, xa: App, x': Endpoint, xa': App, y: Endpoint, ya: App, ix: seq<Packet>, iy: seq<Packet>)
    requires Direction(nonEmpty, x, xa, y, ya, ix, iy)
    requires x' == x.(appSendQ := x'.appSendQ) && xa' == xa.(read := xa'.read, eof := xa'.eof)
    ensures Direction(nonEmpty, x', xa', y, ya, ix, iy)
  {
  }

  lemma ReadKeepsReceiver(nonEmpty: bool, x: Endpoint, xa: App, x': Endpoint, xa': App, y: Endpoint, ya: App, ix: seq<Packet>, iy: seq<Packet>)
    requires Direction(nonEmpty, y, ya, x, xa, iy, ix)
    requires x' == x.(appSendQ := x'.appSendQ) && Received(x', xa') == Received(x, xa)
    requires EofMarked(x'.appSendQ, FinReceived(x'), xa'.eof)
    ensures Direction(nonEmpty, y, ya, x', xa', iy, ix)
  {
    hide Received;
  }

  lemma ReadKeepsLink(nonEmpty: bool, x: Endpoint, xa: App, y: Endpoint, ya: App, ix: seq<Packet>, iy: seq<Packet>, max: nat)
    requires Link(nonEmpty, x, xa, y, ya, ix, iy)
    requires max > 0 && (xa.eof || x.appSendQ != [])
    ensures var r := ReadStep(End(x, xa, []), max); Link(nonEmpty, r.e, r.a, y, ya, ix, iy)
  {
    var r := ReadStep(End(x, xa, []), max);
    ReadStepEffect(End(x, xa, []), max);
    hide Direction;
    hide ReadStep;
    ReadKeepsSender(nonEmpty, x, xa, r.e, r.a, y, ya, ix, iy);
    ReadKeepsReceiver(nonEmpty, x, xa, r.e, r.a, y, ya, ix, iy);
  }

  // ----- FIN ---------------------------------------------------------------------------------

  lemma SendFinEffect(x: Endpoint, conn: CState)
    requires Windowed(x) && x.next + 1 < W32 && x.sendBase == x.next
    ensures var f := SendFin(x, conn);
            && f.sent == [Packet(x.next, 0, TH_FIN, [])]
            && f.e == x.(next := x.next + 1, rem := x.swnd - 1, conn := conn)
            && Windowed(f.e)
  {
    WrapIsIdentity(x.next);
    WrapIsIdentity(x.next + 1);
    WrapIsIdentity(x.swnd - 1);
  }

  lemma SendFinKeepsSender(nonEmpty: bool, x: Endpoint, xa: App, y: Endpoint, ya: App, ix: seq<Packet>, iy: seq<Packet>, f: Effect)
    requires Direction(nonEmpty, x, xa, y, ya, ix, iy)
    requires !FinSent(x) && FinSent(f.e) && !FinReceived(y) && x.sendBase == x.next
    requires f.sent == [Packet(x.next, 0, TH_FIN, [])] && Windowed(f.e)
    requires f.e == x.(next := x.next + 1, rem := x.swnd - 1, conn := f.e.conn)
    ensures Direction(nonEmpty, f.e, xa, y, ya, ix, iy + f.sent)
  {
    PushQuiet(nonEmpty, x, xa, y, ya, iy, f.sent[0]);
    assert Stream(nonEmpty, f.e, xa, y, ya, iy + f.sent) by { hide Received; hide Numbered; hide Payload; }
    hide Stream;
  }

  lemma SendFinKeepsReceiver(nonEmpty: bool, x: Endpoint, xa: App, y: Endpoint, ya: App, ix: seq<Packet>, iy: seq<Packet>, f: Effect)
    requires Direction(nonEmpty, y, ya, x, xa, iy, ix)
    requires FinReceived(f.e) == FinReceived(x)
    requires f.sent == [Packet(x.next, 0, TH_FIN, [])]
    requires f.e == x.(next := x.next + 1, rem := f.e.rem, conn := f.e.conn)
    ensures Direction(nonEmpty, y, ya, f.e, xa, iy + f.sent, ix)
  {
    if !FinReceived(x) {
      AckChainPush(nonEmpty, iy, y.sendBase, x.recvBase, f.sent[0]);
    }
  }

  /** Sending a FIN with nothing outstanding takes one sequence number and carries no data. */
  lemma SendFinKeepsLink(nonEmpty: bool, x: Endpoint, xa: App, y: Endpoint, ya: App, ix: seq<Packet>, iy: seq<Packet>, conn: CState)
    requires Link(nonEmpty, x, xa, y, ya, ix, iy)
    requires !FinSent(x) && FinSent(x.(conn := conn)) && FinReceived(x.(conn := conn)) == FinReceived(x)
    requires x.sendBase == x.next && !FinReceived(y)
    ensures var f := SendFin(x, conn);
            && Link(nonEmpty, f.e, xa, y, ya, ix, iy + f.sent)
            && f.sent == [Packet(x.next, 0, TH_FIN, [])]
            && f.e == x.(next := x.next + 1, rem := x.swnd - 1, conn := conn)
  {
    var f := SendFin(x, conn);
    Unsent(nonEmpty, x, xa, y, ya, iy);
    SendFinEffect(x, conn);
    hide SendFin;
    hide Direction;
    SendFinKeepsSender(nonEmpty, x, xa, y, ya, ix, iy, f);
    SendFinKeepsReceiver(nonEmpty, x, xa, y, ya, ix, iy, f);
  }

  lemma RecvFinEffect(x: Endpoint, xa: App, p: Packet)
    requires p.seqno == x.recvBase && x.recvBase + 1 < W32
    ensures var f := RecvFin(x, p);
            && f.sent == [Packet(x.recvBase + 1, x.recvBase + 1, TH_ACK, [])]
            && f.e == x.(recvBase := x.recvBase + 1, appSendQ := x.appSendQ + [[]], conn := f.e.conn, done := f.e.done)
            && Received(f.e, xa) == Received(x, xa)
            && f.e.appSendQ[..|f.e.appSendQ| - 1] == x.appSendQ
  {
    assert Wrap64(x.recvBase + 1) == x.recvBase + 1 && Wrap32(x.recvBase + 1) == x.recvBase + 1;
    FlatPush(x.appSendQ, []);
  }

  lemma RecvFinKeepsReceiver(nonEmpty: bool, x: Endpoint, xa: App, y: Endpoint, ya: App, ix: seq<Packet>, iy: seq<Packet>, f: Effect)
    requires Direction(nonEmpty, y, ya, x, xa, iy, ix)
    requires ix != [] && !IsData(ix[0]) && !FinReceived(x) && FinReceived(f.e)
    requires f.e == x.(recvBase := x.recvBase + 1, appSendQ := x.appSendQ + [[]], conn := f.e.conn, done := f.e.done)
    requires Received(f.e, xa) == Received(x, xa) && f.e.appSendQ[..|f.e.appSendQ| - 1] == x.appSendQ
    ensures Direction(nonEmpty, y, ya, f.e, xa, iy + f.sent, ix[1..])
  {
    hide AllShaped, Numbered, Payload, Flat, Received, Full, Buffered, Windowed, AckChain;
    DropEmptyHead(nonEmpty, y, ya, x, xa, ix);
  }

  lemma RecvFinKeepsSender(nonEmpty: bool, x: Endpoint, xa: App, y: Endpoint, ya: App, ix: seq<Packet>, iy: seq<Packet>, f: Effect)
    requires Direction(nonEmpty, x, xa, y, ya, ix, iy)
    requires ix != [] && ix[0].flags == TH_FIN && FinSent(f.e) == FinSent(x)
    requires f.e == x.(recvBase := x.recvBase + 1, appSendQ := x.appSendQ + [[]], conn := f.e.conn, done := f.e.done)
    requires f.sent == [Packet(x.recvBase + 1, x.recvBase + 1, TH_ACK, [])]
    ensures Direction(nonEmpty, f.e, xa, y, ya, ix[1..], iy + f.sent)
  {
    PushQuiet(nonEmpty, x, xa, y, ya, iy, f.sent[0]);
    assert Stream(nonEmpty, f.e, xa, y, ya, iy + f.sent) by { hide Numbered; hide Received; }
  }

  /** Receiving the peer's FIN with all the peer's data in. */
  lemma RecvFinKeepsLink(nonEmpty: bool, x: Endpoint, xa: App, y: Endpoint, ya: App, ix: seq<Packet>, iy: seq<Packet>)
    requires Link(nonEmpty, x, xa, y, ya, ix, iy)
    requires ix != [] && ix[0].flags == TH_FIN && ix[0].seqno == x.recvBase
    requires !FinReceived(x) && FinReceived(RecvFin(x, ix[0]).e)
    requires FinSent(RecvFin(x, ix[0]).e) == FinSent(x)
    ensures var f := RecvFin(x, ix[0]);
            && Link(nonEmpty, f.e, xa, y, ya, ix[1..], iy + f.sent)
            && f.sent == [Packet(x.recvBase + 1, x.recvBase + 1, TH_ACK, [])]
  {
    var f := RecvFin(x, ix[0]);
    assert x.recvBase + 1 < W32 by {
      assert |Received(x, xa)| <= |ya.written|;
    }
    hide RecvFin;
    hide Direction;
    RecvFinEffect(x, xa, ix[0]);
    RecvFinKeepsReceiver(nonEmpty, x, xa, y, ya, ix, iy, f);
    RecvFinKeepsSender(nonEmpty, x, xa, y, ya, ix, iy, f);
  }

  /** FIN_WAIT_1 and LAST_ACK drop a packet; harmless when it is a bare ACK. */
  lemma SwallowKeepsReceiver(nonEmpty: bool, x: Endpoint, xa: App, y: Endpoint, ya: App, ix: seq<Packet>, iy: seq<Packet>, conn: CState)
    requires Direction(nonEmpty, y, ya, x, xa, iy, ix)
    requires ix != [] && ix[0].flags == TH_ACK && FinReceived(x.(conn := conn)) == FinReceived(x)
    ensures Direction(nonEmpty, y, ya, x.(conn := conn), xa, iy, ix[1..])
  {
    DropEmptyHead(nonEmpty, y, ya, x, xa, ix);
    hide Numbered;
    hide Payload;
  }

  lemma SwallowKeepsSender(nonEmpty: bool, x: Endpoint, xa: App, y: Endpoint, ya: App, ix: seq<Packet>, iy: seq<Packet>, conn: CState)
    requires Direction(nonEmpty, x, xa, y, ya, ix, iy)
    requires ix != [] && FinReceived(y) && FinSent(x.(conn := conn)) == FinSent(x)
    ensures Direction(nonEmpty, x.(conn := conn), xa, y, ya, ix[1..], iy)
  {
    hide Received;
    hide Numbered;
    hide Payload;
  }

  lemma SwallowKeepsLink(nonEmpty: bool, x: Endpoint, xa: App, y: Endpoint, ya: App, ix: seq<Packet>, iy: seq<Packet>, conn: CState)
    requires Link(nonEmpty, x, xa, y, ya, ix, iy)
    requires ix != [] && ix[0].flags == TH_ACK && FinReceived(y)
    requires FinSent(x.(conn := conn)) == FinSent(x) && FinReceived(x.(conn := conn)) == FinReceived(x)
    ensures Link(nonEmpty, x.(conn := conn), xa, y, ya, ix[1..], iy)
  {
    hide Direction;
    SwallowKeepsReceiver(nonEmpty, x, xa, y, ya, ix, iy, conn);
    SwallowKeepsSender(nonEmpty, x, xa, y, ya, ix, iy, conn);
  }
}
