/** transport.c as it is written: context_t in a class, its branches as methods that update it in
    place, each proved to do what the step functions of StcpSteps say. */
module Transport {
  import opened Bytes
  import opened PacketQueueSpec
  import opened StcpTypes
  import opened StcpSteps

  /** memcpy(dst + off, src, |src|) */
  method CopyIn(dst: array<byte>, off: nat, src: seq<byte>)
    requires off + |src| <= dst.Length
    modifies dst
    ensures dst[..] == Splice(old(dst[..]), off, src)
  {
    var i := 0;
    while i < |src|
      invariant 0 <= i <= |src|
      invariant dst[off..off + i] == src[..i]
      invariant dst[..off] == old(dst[..off])
      invariant dst[off + |src|..] == old(dst[off + |src|..])
    {
      dst[off + i] := src[i];
      assert dst[off..off + i + 1] == dst[off..off + i] + [src[i]];
      i := i + 1;
    }
    assert dst[..] == dst[..off] + dst[off..off + |src|] + dst[off + |src|..];
  }

  /** calloc(n, 1) */
  method Calloc(n: nat) returns (a: array<byte>)
    ensures fresh(a) && a[..] == Zeros(n)
  {
    a := new byte[n](_ => 0);
    assert a[..] == Zeros(n);
  }

  /** new_buffer = calloc(size); memcpy(new_buffer, buffer + from, upto - from) */
  method Shift(buffer: array<byte>, from: nat, upto: nat, size: nat) returns (a: array<byte>)
    requires from <= upto <= buffer.Length && upto - from <= size
    ensures fresh(a) && a[..] == buffer[from..upto] + Zeros(size - (upto - from))
  {
    a := Calloc(size);
    CopyIn(a, 0, buffer[from..upto]);
  }

  /** The last two branches of a round. */
  function RoundEnd(e: Endpoint): Effect
    requires e.pc.NetStage? && StageEnabled(e)
    requires StageStep(e).e.pc.CloseStage? ==> StageEnabled(StageStep(e).e)
  {
    if !e.Running() then Effect(e, [])
    else
      var f := StageStep(e);
      if f.e.pc.CloseStage? then Then(f) else f
  }

  lemma EndIs(e: Endpoint)
    requires e.pc.NetStage? && StageEnabled(e)
    requires StageStep(e).e.pc.CloseStage? ==> StageEnabled(StageStep(e).e)
    ensures RoundEnd(e) == if !e.Running() then Effect(e, []) else if StageStep(e).e.pc.CloseStage? then Then(StageStep(e)) else StageStep(e)
  {
  }

  /** The stages of a round can run one after the other: up to label `next`, and from there on. */
  lemma RoundPrep(e: Endpoint)
    requires RoundReady(e)
    ensures e.Running() && StageEnabled(e) && StageEnabled(StageStep(e).e)
    ensures var f := Then(StageStep(e));
            && f.e.pc.NetStage? && StageEnabled(f.e)
            && (StageStep(f.e).e.pc.CloseStage? ==> StageEnabled(StageStep(f.e).e))
            && Round(e) == Effect(RoundEnd(f.e).e, f.sent + RoundEnd(f.e).sent)
  {
    RoundRuns(e);
    AppStageKeeps(WaitStep(e));
    hide SendData, RecvPacket, CloseBlock;
  }

  /** From the second branch control reaches the third or, by the jump, the loop test. */
  lemma NetStageMoves(x: Endpoint)
    requires x.pc.NetStage? && StageEnabled(x)
    ensures StageStep(x).e.pc.CloseStage? <==> !(x.pc.ev.net && JumpsToClose(x))
  {
    hide RecvPacket, CloseBlock, JumpsToClose;
  }

  lemma Assoc(a: seq<Packet>, b: seq<Packet>, c: seq<Packet>)
    ensures (a + b) + c == a + (b + c)
  {
  }

  lemma SpliceSlice(buffer: seq<byte>, off: nat, data: seq<byte>)
    requires off + |data| <= |buffer|
    ensures Splice(buffer, off, data)[off..off + |data|] == data
  {
  }

  lemma ThenIs(f: Effect)
    requires StageEnabled(f.e) && f.e.Running()
    ensures Then(f) == Effect(StageStep(f.e).e, f.sent + StageStep(f.e).sent)
  {
  }

  lemma ThenStops(f: Effect)
    requires StageEnabled(f.e)
    ensures !f.e.Running() ==> Then(f) == f
  {
  }

  class Context {
    var isClient: bool
    var conn: CState
    var done: bool
    var swnd: nat
    var swndPrev: nat
    var cwnd: nat
    var recvWin: nat
    var sendBase: nat
    var recvBase: nat
    var next: nat
    var rem: nat
    var ackSize: nat
    var buffer: array<byte>
    // mysock_context_t
    var appRecvQ: Blocks
    var appSendQ: Blocks
    var netQ: seq<Packet>
    var closeRequested: bool
    // packets handed to stcp_network_send, oldest first
    var sent: seq<Packet>
    // a copy has left its buffer; a sum was checked over bytes behind one
    var fault: bool
    var overread: bool

    // where the transport thread is; the event bits it sampled are the local `event` of control_loop
    var pc: Pc

    /** The endpoint this object stands for. */
    ghost function View(): Endpoint
      reads this, buffer
    {
      Endpoint(isClient, conn, done, swnd, cwnd, recvWin, sendBase, recvBase, next, rem, buffer[..],
               appRecvQ, appSendQ, netQ, closeRequested, pc, fault, overread)
    }

    /** The context calloc hands to transport_init. */
    constructor (isClient: bool)
      ensures View() == Fresh(isClient) && sent == [] && fresh(buffer)
    {
      this.isClient, conn, done := isClient, Closed, false;
      swnd, swndPrev, cwnd, recvWin := 0, 0, 0, 0;
      sendBase, recvBase, next, rem, ackSize := 0, 0, 0, 0, 0;
      buffer := new byte[0];
      appRecvQ, appSendQ, netQ, closeRequested, sent := [], [], [], false, [];
      pc, fault, overread := Boot, false, false;
    }

    /** transport_init before its loop. */
    method Start()
      requires pc == Boot
      modifies this
      ensures buffer == old(buffer)
      ensures var f := BootStep(old(View())); View() == f.e && sent == old(sent) + f.sent
    {
      pc := Shake;
      if isClient {
        sent := sent + [Packet(ISN, 0, TH_SYN, [])];
        conn := SynSent;
      } else {
        conn := Listen;
      }
    }

    /** One round of the handshake loop, with the assignments that follow it once it is over. */
    method HandshakeRound()
      requires pc == Shake && netQ != [] && (conn == SynSent || conn == Listen || conn == SynRcvd)
      modifies this
      ensures buffer == old(buffer) || fresh(buffer)
      ensures var f := ShakeStep(old(View())); View() == f.e && sent == old(sent) + f.sent
    {
      hide Establish;
      hide Wrap32;
      var p := netQ[0];
      netQ := netQ[1..];
      if p.payload != [] {
        overread := true;
        return;
      }
      if conn == SynSent {
        sent := sent + [Packet(p.ack, Wrap32(p.seqno + 1), p.flags, [])];
        Enter();
      } else if conn == Listen {
        sent := sent + [Packet(ISN, Wrap32(p.seqno + 1), p.flags, [])];
        conn := SynRcvd;
      } else {
        Enter();
      }
    }

    /** Leaving the handshake loop for control_loop. */
    method Enter()
      modifies this
      ensures View() == Establish(old(View()))
      ensures fresh(buffer)
      ensures sent == old(sent)
    {
      ghost var before := View();
      EnterLoop();
      hide Zeros;
      assert View() == Establish(before);
    }

    /** The assignments after the handshake loop, and the calloc that opens control_loop. */
    method EnterLoop()
      modifies this`conn, this`swnd, this`swndPrev, this`cwnd, this`recvWin, this`sendBase, this`recvBase
      modifies this`next, this`rem, this`buffer, this`pc
      ensures conn == Established && pc == Wait
      ensures swnd == cwnd == swndPrev == MSS && recvWin == RECV_WINDOW_SIZE
      ensures sendBase == recvBase == next == ISN && rem == MSS
      ensures fresh(buffer) && buffer[..] == Zeros(MSS)
    {
      conn := Established;
      swnd, swndPrev, cwnd, recvWin := MSS, MSS, MSS, RECV_WINDOW_SIZE;
      sendBase, recvBase := ISN, ISN;
      next := sendBase;
      rem := swnd - (next - sendBase);
      buffer := Calloc(MSS);
      pc := Wait;
    }

    /** stcp_wait_for_event once it no longer blocks. */
    method WaitForEvent() returns (ev: Event)
      requires pc == Wait && StageEnabled(View())
      modifies this`closeRequested, this`pc
      ensures ev.Any() && View() == WaitStep(old(View())) && pc == AppStage(ev)
      ensures ev.app <==> appRecvQ != []
      ensures ev.net <==> netQ != []
      ensures ev.close <==> old(closeRequested) && appRecvQ == []
    {
      ev := Event(appRecvQ != [], netQ != [], false);
      if closeRequested && appRecvQ == [] {
        closeRequested := false;
        ev := ev.(close := true);
      }
      pc := AppStage(ev);
    }

    /** The APP_DATA branch. */
    method SendAppData()
      requires appRecvQ != []
      modifies this, buffer
      ensures buffer == old(buffer)
      ensures var f := SendData(old(View())); View() == f.e && sent == old(sent) + f.sent
    {
      hide TakePartial, Wrap64, Wrap32, Remaining, Splice;
      if rem == 0 {
        return;
      }
      var t := TakePartial(appRecvQ, Min(rem, MSS));
      var off := next - sendBase;
      if off < 0 || off + |t.bytes| > buffer.Length {
        fault := true;
        return;
      }
      SpliceSlice(buffer[..], off, t.bytes);
      CopyIn(buffer, off, t.bytes);
      SendSegment(off, t);
    }

    /** The segment leaves from the buffer, where its bytes have just been copied. */
    method SendSegment(off: nat, t: Taken)
      requires off == next - sendBase && off + |t.bytes| <= buffer.Length && buffer[off..off + |t.bytes|] == t.bytes
      modifies this`appRecvQ, this`sent, this`next, this`rem
      ensures appRecvQ == t.rest && sent == old(sent) + [Packet(Wrap32(old(next)), 0, TH_DATA, t.bytes)]
      ensures next == Wrap64(old(next) + |t.bytes|) && rem == Remaining(swnd, next, sendBase)
    {
      appRecvQ := t.rest;
      sent := sent + [Packet(Wrap32(next), 0, TH_DATA, buffer[off..off + |t.bytes|])];
      next := Wrap64(next + |t.bytes|);
      rem := Remaining(swnd, next, sendBase);
    }

    /** The window after one more acknowledgement. */
    method NextWindow() returns (c: nat, w: nat)
      ensures c == GrowCwnd(cwnd) && w == Min(c, recvWin)
    {
      c := if cwnd < 4 * MSS then cwnd + MSS else cwnd + MSS * MSS / cwnd;
      w := Min(c, recvWin);
    }

    /** The numbers and the buffer after an acknowledgement of `acked` more bytes. */
    method OpenWindow(ack: nat, acked: nat, c: nat, w: nat)
      requires acked <= swnd <= buffer.Length && swnd - acked <= w
      modifies this`sendBase, this`ackSize, this`cwnd, this`swndPrev, this`swnd, this`rem, this`buffer
      ensures sendBase == ack && ackSize == acked && swndPrev == old(swnd) && cwnd == c && swnd == w
      ensures rem == Remaining(w, next, ack)
      ensures fresh(buffer)
      ensures buffer[..] == old(buffer[..])[acked..swndPrev] + Zeros(w - (swndPrev - acked))
    {
      sendBase := ack;
      ackSize := acked;
      cwnd := c;
      swndPrev := swnd;
      swnd := w;
      rem := Remaining(swnd, next, sendBase);
      buffer := Shift(buffer, ackSize, swndPrev, swnd);
    }

    /** The TH_ACK branch; the caller has taken the packet off the queue. */
    method ReceiveAck(p: Packet)
      modifies this
      ensures View() == RecvAck(old(View()), p)
      ensures buffer == old(buffer) || fresh(buffer)
      ensures sent == old(sent)
    {
      var acked := Wrap64(p.ack - sendBase);
      var c, w := NextWindow();
      hide GrowCwnd, Wrap64, Remaining;
      if acked > swnd || swnd > buffer.Length || swnd - acked > w {
        fault := true;
        return;
      }
      OpenWindow(p.ack, acked, c, w);
    }

    /** The TH_FIN branch. */
    method ReceiveFin(p: Packet)
      modifies this
      ensures buffer == old(buffer)
      ensures var f := RecvFin(old(View()), p); View() == f.e && sent == old(sent) + f.sent
    {
      hide Wrap64, Wrap32;
      recvBase := Wrap64(recvBase + 1);
      sent := sent + [Packet(Wrap32(recvBase), Wrap32(p.seqno + 1), TH_ACK, [])];
      if isClient {
        conn := Closed;
        done := true;
      } else {
        conn := CloseWait;
      }
      appSendQ := appSendQ + [[]];
    }

    /** The data branch. */
    method ReceiveData(p: Packet)
      modifies this
      ensures buffer == old(buffer)
      ensures var f := RecvData(old(View()), p); View() == f.e && sent == old(sent) + f.sent
    {
      hide Wrap64, Wrap32;
      if |p.payload| > MSS {
        fault := true;
        return;
      }
      recvBase := Wrap64(recvBase + |p.payload|);
      sent := sent + [Packet(Wrap32(recvBase), Wrap32(p.seqno + |p.payload|), TH_ACK, [])];
      if |p.payload| > 0 {
        appSendQ := appSendQ + [p.payload];
      }
    }

    /** The block at label `close`. */
    method CloseAt()
      requires AwaitsLastAck(View()) ==> netQ != []
      modifies this
      ensures buffer == old(buffer)
      ensures var f := CloseBlock(old(View())); View() == f.e && sent == old(sent) + f.sent
    {
      if !isClient {
        if conn == CloseWait {
          SendFinPacket(LastAck);
        } else if conn == LastAck {
          var p := netQ[0];
          netQ := netQ[1..];
          if p.payload != [] {
            overread := true;
          } else if p.flags == TH_ACK {
            conn := Closed;
            done := true;
          }
        }
      } else {
        if conn == Established {
          SendFinPacket(FinWait1);
        } else if conn == FinWait1 {
          var p := netQ[0];
          netQ := netQ[1..];
          if p.payload != [] {
            overread := true;
          } else if p.flags == TH_ACK {
            conn := FinWait2;
          }
        }
      }
    }

    method SendFinPacket(state: CState)
      modifies this
      ensures buffer == old(buffer)
      ensures var f := SendFin(old(View()), state); View() == f.e && sent == old(sent) + f.sent
    {
      hide Wrap64, Wrap32, Remaining;
      sent := sent + [Packet(Wrap32(next), 0, TH_FIN, [])];
      next := Wrap64(next + 1);
      rem := Remaining(swnd, next, sendBase);
      conn := state;
    }

    /** `if (event & APP_DATA)` */
    method AppDataStage()
      requires pc.AppStage? && StageEnabled(View())
      modifies this, buffer
      ensures View() == StageStep(old(View())).e && sent == old(sent) + StageStep(old(View())).sent
      ensures buffer == old(buffer)
      ensures pc == NetStage(old(pc).ev)
    {
      var ev := pc.ev;
      if ev.app {
        SendAppData();
      }
      pc := NetStage(ev);
    }

    /** `if (event & NETWORK_DATA)`; `jumped` says that control went to `close` from inside. */
    method NetworkStage() returns (jumped: bool)
      requires pc.NetStage? && StageEnabled(View())
      modifies this
      ensures View() == StageStep(old(View())).e && sent == old(sent) + StageStep(old(View())).sent
      ensures buffer == old(buffer) || fresh(buffer)
      ensures jumped <==> old(pc.ev.net && JumpsToClose(View()))
      ensures !jumped ==> pc.CloseStage?
    {
      jumped := false;
      var ev := pc.ev;
      if !ev.net {
        pc := CloseStage(ev);
      } else if conn == FinWait1 || conn == LastAck {
        jumped := true;
        CloseAt();
        LoopTest();
      } else {
        TakePacket();
        pc := CloseStage(ev);
      }
    }

    /** The three kinds of packet. */
    method TakePacket()
      requires netQ != []
      modifies this
      ensures View() == RecvPacket(old(View())).e && sent == old(sent) + RecvPacket(old(View())).sent
      ensures buffer == old(buffer) || fresh(buffer)
    {
      var p := netQ[0];
      netQ := netQ[1..];
      if p.flags == TH_ACK {
        ReceiveAck(p);
      } else if p.flags == TH_FIN {
        ReceiveFin(p);
      } else {
        ReceiveData(p);
      }
    }

    /** `if (event & APP_CLOSE_REQUESTED)` */
    method CloseRequestStage()
      requires pc.CloseStage? && StageEnabled(View())
      modifies this
      ensures View() == StageStep(old(View())).e && sent == old(sent) + StageStep(old(View())).sent
      ensures buffer == old(buffer)
    {
      if pc.ev.close {
        CloseAt();
      }
      LoopTest();
    }

    /** Back at the loop test; only the position changes. */
    method LoopTest()
      modifies this`pc
      ensures View() == EndRound(old(View()))
    {
      pc := if done then Exit else Wait;
    }

    /** The loop body up to label `next`. */
    method WaitAndSend()
      requires pc == Wait && StageEnabled(View()) && View().Running()
      requires StageEnabled(StageStep(View()).e)
      modifies this, buffer
      ensures View() == Then(StageStep(old(View()))).e
      ensures sent == old(sent) + Then(StageStep(old(View()))).sent
      ensures buffer == old(buffer)
      ensures pc.NetStage?
    {
      var ev := WaitForEvent();
      AppDataStage();
    }

    /** The loop body from label `next` on. */
    method ReceiveAndClose()
      requires pc.NetStage? && StageEnabled(View())
      requires StageStep(View()).e.pc.CloseStage? ==> StageEnabled(StageStep(View()).e)
      modifies this
      ensures View() == RoundEnd(old(View())).e && sent == old(sent) + RoundEnd(old(View())).sent
      ensures buffer == old(buffer) || fresh(buffer)
    {
      ghost var f := StageStep(View());
      NetStageMoves(View());
      EndIs(View());
      if fault || overread {
        assert sent + [] == sent;
        return;
      }
      if f.e.pc.CloseStage? {
        ThenStops(f);
      }
      hide RoundEnd, StageStep, Then, JumpsToClose, StageEnabled;
      if f.e.pc.CloseStage? && f.e.Running() {
        ThenIs(f);
        Assoc(sent, f.sent, StageStep(f.e).sent);
      }
      var jumped := NetworkStage();
      if !jumped && !fault && !overread {
        CloseRequestStage();
      }
    }

    /** One pass through the loop body of control_loop. */
    method ControlRound()
      requires RoundReady(View())
      modifies this, buffer
      ensures View() == Round(old(View())).e
      ensures sent == old(sent) + Round(old(View())).sent
      ensures buffer == old(buffer) || fresh(buffer)
    {
      RoundPrep(View());
      ghost var f := Then(StageStep(View()));
      hide *;
      Assoc(sent, f.sent, RoundEnd(f.e).sent);
      WaitAndSend();
      ReceiveAndClose();
    }
  }
}
