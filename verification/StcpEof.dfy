/** When the end of file that myread reports is the end of the stream, however the applications behave. */
module StcpEof {
  import opened Bytes
  import opened PacketQueueSpec
  import opened StcpTypes
  import opened StcpSteps
  import opened StcpSystem
  import opened StcpChannel
  import opened StcpLink
  import opened StcpInvariant
  import opened StcpStages
  import opened StcpHandshake
  import opened StcpOrderly
  import opened StcpFree
  import opened StcpOverrun

  /** A myread of length 0 that meets bytes: it returns 0 and sets the end of file for good. */
  predicate ReadsNothing(x: End, action: Action) {
    action == DoRead(0) && !x.a.eof && x.e.appSendQ != [] && x.e.appSendQ[0] != []
  }

  /** The blocks waiting for myread end in the mark of the FIN; `cut` says that a read of length 0 has
      closed the stream in front of bytes. */
  predicate Marked(x: End, cut: bool) {
    if cut then x.a.eof && x.e.appSendQ != [] && x.e.appSendQ[0] != []
    else EofMarked(x.e.appSendQ, FinReceived(x.e), x.a.eof)
  }

  // ----- one action -----------------------------------------------------------------------------------

  lemma ReadMarks(x: End, max: nat, cut: bool)
    requires Marked(x, cut) && Enabled(x, DoRead(max))
    ensures Marked(Act(x, DoRead(max)).end, cut || ReadsNothing(x, DoRead(max)))
  {
    hide EofMarked, TakePartial;
    if !x.a.eof && !cut && !ReadsNothing(x, DoRead(max)) {
      MarkTaken(x.e.appSendQ, max, FinReceived(x.e));
    } else if !x.a.eof {
      NothingTaken(x.e.appSendQ);
    }
  }

  /** A read that does not cut the stream takes bytes, or the mark. */
  lemma MarkTaken(q: Blocks, max: nat, fin: bool)
    requires q != [] && EofMarked(q, fin, false) && (max > 0 || q[0] == [])
    ensures var t := TakePartial(q, max); EofMarked(t.rest, fin, t.bytes == [])
  {
    var t := TakePartial(q, max);
    if |q[0]| > max {
      assert t.rest[1..] == q[1..] && t.rest[0] != [] && t.bytes != [];
      assert fin ==> |q| > 1 && t.rest[..|q| - 1] == [t.rest[0]] + q[..|q| - 1][1..];
    } else if fin && |q| > 1 {
      assert q[..|q| - 1][0] == q[0];
      assert t.rest[..|q| - 2] == q[..|q| - 1][1..];
    }
  }

  lemma NothingTaken(q: Blocks)
    requires q != [] && q[0] != []
    ensures TakePartial(q, 0) == Taken([], q)
  {
    assert [q[0][0..]] + q[1..] == q;
  }

  /** A block that reaches the application's queue: data, or the mark of the FIN. */
  lemma PushMarks(q: Blocks, block: seq<byte>, fin: bool, eof: bool)
    requires EofMarked(q, false, eof) && (fin <==> block == [])
    ensures EofMarked(q + [block], fin, eof)
  {
    assert (q + [block])[..|q|] == q;
  }

  lemma RecvPacketMarks(e: Endpoint)
    requires e.netQ != [] && WellShaped(false, e.netQ[0])
    ensures var f, p := RecvPacket(e).e, e.netQ[0];
            && f.isClient == e.isClient
            && f.conn == (if p.flags != TH_FIN then e.conn else if e.isClient then Closed else CloseWait)
            && f.appSendQ == if p.flags == TH_FIN then e.appSendQ + [[]]
                             else if p.payload != [] then e.appSendQ + [p.payload] else e.appSendQ
  {
    RecvAckFrame(e.(netQ := e.netQ[1..]), e.netQ[0]);
    hide RecvAck, Wrap32, Wrap64;
  }

  lemma TakenMarks(x: End, cut: bool)
    requires Marked(x, cut) && x.e.netQ != [] && WellShaped(false, x.e.netQ[0])
    requires FinReceived(x.e) ==> x.e.netQ[0].flags == TH_ACK
    ensures Marked(x.(e := RecvPacket(x.e).e), cut)
  {
    var e, p := x.e, x.e.netQ[0];
    RecvPacketMarks(e);
    if !cut {
      if p.flags == TH_FIN {
        PushMarks(e.appSendQ, [], true, x.a.eof);
      } else if p.payload != [] {
        PushMarks(e.appSendQ, p.payload, false, x.a.eof);
      }
    }
    hide RecvPacket, EofMarked;
  }

  lemma CloseBlockMarks(e: Endpoint)
    requires AwaitsLastAck(e) ==> e.netQ != []
    ensures var f := CloseBlock(e).e; f.appSendQ == e.appSendQ && FinReceived(f) == FinReceived(e)
  {
    if AwaitsLastAck(e) {
      assert CloseBlock(e).e == Swallow(e);
      hide CloseBlock, SendFin;
    } else {
      hide Wrap32, Wrap64, Remaining, Swallow;
    }
  }

  lemma MarkedKept(x: End, f: Endpoint, cut: bool)
    requires Marked(x, cut) && f.appSendQ == x.e.appSendQ
    requires FinReceived(f) == FinReceived(x.e) || (f.isClient == x.e.isClient && f.conn == x.e.conn)
    ensures Marked(x.(e := f), cut)
  {
    hide EofMarked;
  }

  lemma CloseStageMarks(x: End, cut: bool)
    requires Marked(x, cut) && StageEnabled(x.e)
    requires (x.e.pc.NetStage? && x.e.pc.ev.net && JumpsToClose(x.e)) || x.e.pc.CloseStage?
    ensures Marked(x.(e := StageStep(x.e).e), cut)
  {
    hide Marked, SendData, RecvPacket, CloseBlock, EofMarked;
    if x.e.pc.NetStage? || x.e.pc.ev.close {
      CloseBlockBytes(x.e);
      CloseBlockMarks(x.e);
    }
    MarkedKept(x, StageStep(x.e).e, cut);
  }

  lemma StageMarks(x: End, cut: bool)
    requires Marked(x, cut) && StageEnabled(x.e) && AllShaped(false, In(x))
    requires FinReceived(x.e) ==> OnlyAcks(In(x))
    ensures Marked(x.(e := StageStep(x.e).e), cut)
  {
    hide Marked, EofMarked, SendData, RecvPacket, CloseBlock, JumpsToClose, AwaitsLastAck, FinReceived, OnlyAcks, AllShaped;
    var e := x.e;
    if e.pc.AppStage? && e.pc.ev.app {
      SendDataFrame(e);
      MarkedKept(x, StageStep(e).e, cut);
    } else if e.pc.NetStage? && e.pc.ev.net && !JumpsToClose(e) {
      HeadShaped(e.netQ, x.wire);
      HeadIsAck(x);
      TakenMarks(x, cut);
      MarkedKept(x.(e := RecvPacket(e).e), StageStep(e).e, cut);
    } else if (e.pc.NetStage? && e.pc.ev.net) || e.pc.CloseStage? {
      CloseStageMarks(x, cut);
    } else {
      MarkedKept(x, StageStep(e).e, cut);
    }
  }

  lemma HeadIsAck(x: End)
    requires x.e.netQ != []
    ensures OnlyAcks(In(x)) ==> x.e.netQ[0].flags == TH_ACK
  {
    assert In(x)[0] == x.e.netQ[0];
  }

  lemma ActMarks(x: End, action: Action, cut: bool)
    requires Marked(x, cut) && InLoop(x.e) && Enabled(x, action) && AllShaped(false, In(x))
    requires FinReceived(x.e) ==> OnlyAcks(In(x))
    ensures Marked(Act(x, action).end, cut || ReadsNothing(x, action))
  {
    hide StageStep, EofMarked, AllShaped, TakePartial;
    match action
    case DoRead(max) => ReadMarks(x, max, cut);
    case DoStage => StageMarks(x, cut);
    case _ =>
  }

  // ----- one step -------------------------------------------------------------------------------------

  predicate CutsAt(v: Sys, step: Step, client: bool) {
    step.client == client && ReadsNothing(EndOf(v, client), step.action)
  }

  /** Behind the peer's FIN there are only acknowledgements, and the peer has nothing more to send. */
  lemma AfterTheFin(u: Sys, client: bool, misfit: bool)
    requires Track(u, misfit)
    ensures var x := EndOf(u, client);
            && InLoop(x.e) && AllShaped(false, In(x))
            && (FinReceived(x.e) ==> OnlyAcks(In(x)) && !x.e.overread && Peer(u, client).e.appRecvQ == [])
  {
    hide Answers, AllShaped, Draining, Room, Doomed, Windowed, Flat, FinThenAcks, FinLast;
  }

  lemma StepMarks(u: Sys, step: Step, client: bool, misfit: bool, cut: bool)
    requires Track(u, misfit) && CanStep(u, step) && Marked(EndOf(u, client), cut)
    ensures Marked(EndOf(After(u, step), client), cut || CutsAt(u, step, client))
  {
    AfterTheFin(u, client, misfit);
    AfterIs(u, step);
    hide Track, After, Act, Marked, FinReceived, OnlyAcks, AllShaped, ReadsNothing;
    if step.client == client {
      ActMarks(EndOf(u, client), step.action, cut);
    } else {
      MarkedAnywhere(EndOf(u, client), EndOf(After(u, step), client), cut);
    }
  }

  lemma MarkedAnywhere(x: End, y: End, cut: bool)
    requires Marked(x, cut) && y.e == x.e && y.a == x.a
    ensures Marked(y, cut)
  {
  }

  // ----- whole runs -----------------------------------------------------------------------------------

  /** Somewhere along the run a myread of length 0 at that end has met bytes. */
  ghost predicate CutShort(v: Sys, steps: seq<Step>, client: bool)
    decreases |steps|
  {
    steps != [] && CanStep(v, steps[0]) && (CutsAt(v, steps[0], client) || CutShort(After(v, steps[0]), steps[1..], client))
  }

  lemma FreeStepMarks(v: Sys, step: Step, client: bool, misfit: bool, cut: bool)
    requires Handshake(v) && Track(Strip(v), misfit) && CanStep(v, step) && Marked(EndOf(Strip(v), client), cut)
    ensures Marked(EndOf(Strip(After(v, step)), client), cut || CutsAt(v, step, client))
  {
    StepCommutes(v, step);
    hide Handshake, Track, Strip, After, CanStep, Marked;
    if Mirrored(v, step) {
      StepMarks(Strip(v), step, client, misfit, cut);
    }
  }

  lemma {:induction false} RunMarks(v: Sys, steps: seq<Step>, w: Sys, client: bool, misfit: bool, cut: bool)
    requires Handshake(v) && Track(Strip(v), misfit) && FreeRun(v, steps, w) && Small(w.ca) && Small(w.sa)
    requires Marked(EndOf(Strip(v), client), cut)
    ensures Marked(EndOf(Strip(w), client), cut || CutShort(v, steps, client))
    decreases |steps|
  {
    hide Handshake, Track, Strip, After, MisfitStep, CanStep, CutsAt, Marked;
    if steps != [] {
      WritesGrow(v, steps, w);
      FreeStepTracks(v, steps[0], misfit);
      FreeStepMarks(v, steps[0], client, misfit, cut);
      RunMarks(After(v, steps[0]), steps[1..], w, client, misfit || MisfitStep(Strip(v), steps[0]), cut || CutsAt(v, steps[0], client));
    }
  }

  lemma InitialMarks(client: bool)
    ensures Marked(EndOf(Strip(Init()), client), false)
  {
    hide Zeros;
    assert BeforeSyn(Init().c, Init().s, ToClient(Init()), ToServer(Init()));
    EarlyStrip(Init());
  }

  /** At the mark nothing is in flight or unsent; at a cut some bytes are still unread. */
  lemma EofOf(u: Sys, client: bool, misfit: bool, cut: bool)
    requires Track(u, misfit) && Marked(EndOf(u, client), cut) && EndOf(u, client).a.eof
    requires ConservedTo(u, client) <==> !EndOf(u, client).e.overread
    requires Missing(u, client) >= 0
    ensures EndOf(u, client).a.read == Peer(u, client).a.written <==> !cut
  {
    AfterTheFin(u, client, misfit);
    var x := EndOf(u, client);
    hide Track, FinReceived, AllShaped, OnlyAcks, Payload;
    if cut {
      assert |Flat(x.e.appSendQ)| >= |x.e.appSendQ[0]|;
    } else {
      assert x.e.appSendQ == [];
      OnlyAcksNoPayload(In(x));
    }
  }

  lemma OnlyAcksNoPayload(ch: seq<Packet>)
    requires OnlyAcks(ch) && AllShaped(false, ch)
    ensures Payload(ch) == []
  {
    NoDataNoPayload(false, ch);
  }

  /**
   * However the applications behave, as long as they write less than 2^32 - 2 bytes each: once myread has
   * returned 0 at an end, all that the peer wrote has been read there if and only if no myread of length 0
   * has met bytes.
   */
  lemma EofExactly(steps: seq<Step>, w: Sys, client: bool)
    requires FreeRun(Init(), steps, w) && Small(w.ca) && Small(w.sa)
    requires EndOf(w, client).a.eof
    ensures EndOf(w, client).a.read == EndOf(w, !client).a.written <==> !CutShort(Init(), steps, client)
  {
    InitialTrack();
    InitialMarks(client);
    RunTracks(Init(), steps, w, false);
    RunMarks(Init(), steps, w, client, false, false);
    StreamSafetyExactly(steps, w, client);
    StripCounts(w, client);
    StripBytes(w);
    hide Handshake, Track, FinsFit, FreeRun, Small, Marked, CutShort, ConservedTo, Missing, NoDataSwallowed, Dropped;
    hide Strip;
    EofOf(Strip(w), client, !FinsFit(Init(), steps), CutShort(Init(), steps, client));
  }

  /** It does happen: one byte has arrived, and a read of length 0 closes the stream in front of it. */
  lemma EmptyReadCutsStream() returns (steps: seq<Step>, w: Sys)
    ensures FreeRun(Init(), steps, w)
    ensures w.sa.eof && w.sa.read == [] && w.ca.written == [7] && w.s.appSendQ == [[7]]
  {
    hide FreeRun, Run;
    var v: Sys;
    steps, v := ByteExchanged();
    RunIsFree(true, Init(), steps, v);
    steps, w := FreeDo(Init(), steps, v, Step(false, DoRead(0)));
  }
}
