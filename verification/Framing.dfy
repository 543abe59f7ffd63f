/**
 * Length-prefixed packets over a byte stream: _tcp_io, _network_send_packet and _network_recv_packet
 * of network_io_tcp.c. The stream moves as few or as many bytes at a time as it likes.
 */
module Framing {
  import opened Bytes

  // ----- the stream ----------------------------------------------------------------------------

  /** How far one call of _tcp_io got; `stopped` is the result that ended it early, if any. */
  datatype Progress = Progress(done: nat, stopped: bool, rc: int, script: seq<int>)

  /** A write moves what the next script entry says: an error, nothing, or some of the bytes. */
  function Accepted(v: int, n: nat): int {
    if v < 0 then -1 else Min(v, n)
  }

  /** A read fails, reports the end of the stream, or yields at least one of the bytes there are. */
  function Yielded(v: int, n: nat, available: nat): int {
    if v < 0 then -1 else if v == 0 then Min(1, Min(n, available)) else Min(v, Min(n, available))
  }

  /** The entry that decides the next call; past the end of the script everything moves at once. */
  function Next(script: seq<int>, all: nat): int {
    if script == [] then all else script[0]
  }

  function Tail(script: seq<int>): seq<int> {
    if script == [] then [] else script[1..]
  }

  /** A run that had moved `done` bytes before. */
  function Later(p: Progress, done: nat): Progress {
    p.(done := done + p.done)
  }

  function WriteRun(script: seq<int>, n: nat): (p: Progress)
    ensures p.done <= n && (p.stopped <==> p.done < n) && (p.stopped ==> p.rc <= 0)
    decreases n
  {
    if n == 0 then Progress(0, false, 0, script)
    else
      var k := Accepted(Next(script, n), n);
      if k <= 0 then Progress(0, true, k, Tail(script))
      else
        var rest := WriteRun(Tail(script), n - k);
        Later(rest, k)
  }

  function ReadRun(script: seq<int>, n: nat, available: nat): (p: Progress)
    ensures p.done <= n && p.done <= available && (p.stopped ==> p.rc <= 0) && (!p.stopped ==> p.done == n)
    decreases n
  {
    if n == 0 then Progress(0, false, 0, script)
    else
      var k := Yielded(Next(script, n), n, available);
      if k <= 0 then Progress(0, true, k, Tail(script))
      else
        var rest := ReadRun(Tail(script), n - k, available - k);
        Later(rest, k)
  }

  /** One call, then the rest of the run. */
  lemma ReadRunStep(script: seq<int>, n: nat, available: nat)
    requires n > 0
    ensures var k, p := Yielded(Next(script, n), n, available), ReadRun(script, n, available);
            if k <= 0 then p == Progress(0, true, k, Tail(script))
            else k <= n && k <= available &&
                 var q := ReadRun(Tail(script), n - k, available - k); p == Later(q, k)
  {
  }

  lemma ReadRunEnd(script: seq<int>, available: nat)
    ensures ReadRun(script, 0, available) == Progress(0, false, 0, script)
  {
  }

  /** No call fails. */
  predicate NoError(script: seq<int>) {
    forall v <- script :: v >= 0
  }

  /** Without errors a read ends early only at the end of the stream, whatever the sizes of the pieces. */
  lemma {:induction false} ReadRunHealthy(script: seq<int>, n: nat, available: nat)
    requires NoError(script)
    ensures var p := ReadRun(script, n, available);
            && NoError(p.script)
            && (n <= available ==> !p.stopped && p.done == n)
            && (n > available ==> p.stopped && p.rc == 0 && p.done == available)
    decreases n
  {
    if n > 0 {
      var k := Yielded(Next(script, n), n, available);
      assert script != [] ==> script[0] in script && forall v <- Tail(script) :: v in script;
      if k > 0 {
        ReadRunHealthy(Tail(script), n - k, available - k);
      }
    }
  }

  /** Every write moves something. */
  predicate NoRefusal(script: seq<int>) {
    forall v <- script :: v > 0
  }

  lemma {:induction false} WriteRunHealthy(script: seq<int>, n: nat)
    requires NoRefusal(script)
    ensures !WriteRun(script, n).stopped && NoRefusal(WriteRun(script, n).script)
    decreases n
  {
    if n > 0 {
      var k := Accepted(Next(script, n), n);
      assert script != [] ==> script[0] in script && forall v <- Tail(script) :: v in script;
      WriteRunHealthy(Tail(script), n - k);
    }
  }

  /** One direction of a connection: the bytes written and not yet read. */
  class Socket {
    var stream: seq<byte>
    var script: seq<int>

    constructor (script: seq<int>)
      ensures stream == [] && this.script == script
    {
      stream := [];
      this.script := script;
    }

    method Write(data: seq<byte>) returns (rc: int)
      modifies this
      ensures rc == Accepted(Next(old(script), |data|), |data|) && script == Tail(old(script))
      ensures stream == old(stream) + (if rc > 0 then data[..rc] else [])
    {
      rc := Accepted(Next(script, |data|), |data|);
      script := Tail(script);
      if rc > 0 {
        stream := stream + data[..rc];
      }
    }

    method Read(buf: array<byte>, at: nat, n: nat) returns (rc: int)
      requires at + n <= buf.Length
      modifies this, buf
      ensures rc == Yielded(Next(old(script), n), n, |old(stream)|) && script == Tail(old(script))
      ensures rc <= 0 ==> stream == old(stream) && buf[..] == old(buf[..])
      ensures rc > 0 ==> rc <= |old(stream)| && rc <= n && stream == old(stream)[rc..]
                         && buf[..] == old(buf[..at]) + old(stream)[..rc] + old(buf[at + rc..])
    {
      rc := Yielded(Next(script, n), n, |stream|);
      script := Tail(script);
      if rc > 0 {
        forall i | 0 <= i < rc {
          buf[at + i] := stream[i];
        }
        stream := stream[rc..];
      }
    }

    /** _tcp_io with `write`. */
    method WriteAll(data: seq<byte>) returns (rc: int)
      modifies this
      ensures var p := WriteRun(old(script), |data|);
              && stream == old(stream) + data[..p.done] && script == p.script
              && rc == if p.stopped then p.rc else |data|
    {
      hide Accepted, Next, Tail;
      var done := 0;
      ghost var s0, script0 := stream, script;
      assert s0 + data[..0] == s0;
      while done < |data|
        invariant 0 <= done <= |data|
        invariant stream == s0 + data[..done]
        invariant WriteRun(script0, |data|) == Later(WriteRun(script, |data| - done), done)
        decreases |data| - done
      {
        rc := Write(data[done..]);
        if rc <= 0 {
          assert stream == s0 + data[..done];
          return;
        }
        assert data[..done] + data[done..][..rc] == data[..done + rc];
        done := done + rc;
      }
      rc := |data|;
    }

    /** _tcp_io with `read`, into the first `n` bytes of the buffer. */
    method ReadAll(buf: array<byte>, n: nat) returns (rc: int)
      requires n <= buf.Length
      modifies this, buf
      ensures var p := ReadRun(old(script), n, |old(stream)|);
              && stream == old(stream)[p.done..] && script == p.script
              && buf[..] == old(stream)[..p.done] + old(buf[p.done..])
              && rc == if p.stopped then p.rc else n
    {
      hide Yielded, Next, Tail, ReadRun;
      var done := 0;
      ghost var s0, script0, b0 := stream, script, buf[..];
      assert s0[0..] == s0 && b0 == s0[..0] + b0[0..];
      while done < n
        invariant 0 <= done <= n && done <= |s0|
        invariant stream == s0[done..]
        invariant buf[..] == s0[..done] + b0[done..]
        invariant ReadRun(script0, n, |s0|) == Later(ReadRun(script, n - done, |stream|), done)
        decreases n - done
      {
        ghost var before := buf[..];
        ReadRunStep(script, n - done, |stream|);
        rc := Read(buf, done, n - done);
        if rc <= 0 {
          return;
        }
        assert stream == s0[done + rc..] && buf[..] == s0[..done + rc] + b0[done + rc..] by {
          PiecePlaced(s0, b0, before, done, rc);
        }
        done := done + rc;
      }
      assert ReadRun(script, 0, |stream|) == Progress(0, false, 0, script) by { ReadRunEnd(script, |stream|); }
      rc := n;
    }
  }

  lemma PiecePlaced(s0: seq<byte>, b0: seq<byte>, before: seq<byte>, done: nat, k: nat)
    requires done + k <= |s0| && done + k <= |b0|
    requires before == s0[..done] + b0[done..]
    ensures s0[done..][k..] == s0[done + k..]
    ensures before[..done] + s0[done..][..k] + before[done + k..] == s0[..done + k] + b0[done + k..]
  {
    assert before[..done] == s0[..done];
    assert before[done + k..] == b0[done + k..];
    assert s0[..done] + s0[done..][..k] == s0[..done + k];
  }

  // ----- packets -------------------------------------------------------------------------------

  /** A 16-bit length, high byte first (the length is cut to 16 bits), then the packet. */
  function Header(n: nat): (h: seq<byte>)
    ensures |h| == 2
  {
    [n % 65536 / 256, n % 256]
  }

  function Frame(p: seq<byte>): seq<byte> {
    Header(|p|) + p
  }

  function LengthOf(h: seq<byte>): (n: nat)
    requires |h| >= 2
    ensures n < 65536
  {
    var hi: nat, lo: nat := h[0], h[1];
    256 * hi + lo
  }

  /** The header is the length in network order, and the receiver reads it so. */
  lemma HeaderLength(n: nat)
    ensures var hi: nat, lo: nat := Header(n)[0], Header(n)[1]; hi * 256 + lo == n % 65536
    ensures LengthOf(Header(n)) == n % 65536
    ensures n < 65536 ==> LengthOf(Header(n)) == n
  {
    assert n % 65536 / 256 * 256 + n % 65536 % 256 == n % 65536;
    assert n % 65536 % 256 == n % 256;
  }

  /** What one send reports, the bytes it put on the stream, and what it leaves of the script. */
  datatype Sent = Sent(rc: int, bytes: seq<byte>, script: seq<int>)

  /** A header that was refused part way (result 0) does not stop the packet from following it. */
  function Send(script: seq<int>, src: seq<byte>): Sent {
    var header := WriteRun(script, 2);
    if header.stopped && header.rc < 0 then Sent(-1, Header(|src|)[..header.done], header.script)
    else
      var body := WriteRun(header.script, |src|);
      Sent(if body.stopped && body.rc < 0 then -1 else |src|,
           Header(|src|)[..header.done] + src[..body.done], body.script)
  }

  /** _network_send_packet. */
  method SendPacket(sock: Socket, src: seq<byte>) returns (rc: int)
    modifies sock
    ensures var s := Send(old(sock.script), src);
            rc == s.rc && sock.stream == old(sock.stream) + s.bytes && sock.script == s.script
  {
    hide WriteRun;
    var wrote := sock.WriteAll(Header(|src|));
    if wrote < 0 {
      return -1;
    }
    wrote := sock.WriteAll(src);
    if wrote < 0 {
      return -1;
    }
    rc := |src|;
  }

  /** If every write moves something, the whole frame is on the stream. */
  lemma SendWhole(script: seq<int>, src: seq<byte>)
    requires NoRefusal(script)
    ensures var s := Send(script, src); s.rc == |src| && s.bytes == Frame(src) && NoRefusal(s.script)
  {
    WriteRunHealthy(script, 2);
    WriteRunHealthy(WriteRun(script, 2).script, |src|);
    hide WriteRun, NoRefusal, Header;
    assert Header(|src|)[..2] == Header(|src|) && src[..|src|] == src;
  }

  /** The entries that decided the calls made: what is gone from the script. */
  function Used(script: seq<int>, left: seq<int>): seq<int> {
    if |left| <= |script| then script[..|script| - |left|] else []
  }

  /** A run uses up the script from the front. */
  ghost predicate Uses(script: seq<int>, left: seq<int>) {
    |left| <= |script| && left == script[|script| - |left|..]
  }

  lemma UsedSplits(a: seq<int>, b: seq<int>, c: seq<int>)
    requires Uses(a, b) && Uses(b, c)
    ensures Uses(a, c) && Used(a, c) == Used(a, b) + Used(b, c)
  {
    assert Used(a, c) == Used(a, b) + Used(b, c);
  }

  /** A run stops with result 0 exactly when one of the calls it made returned 0. */
  lemma {:induction false} WriteRunUses(script: seq<int>, n: nat)
    ensures var p := WriteRun(script, n);
            Uses(script, p.script) && (0 in Used(script, p.script) <==> p.stopped && p.rc == 0)
    decreases n
  {
    if n > 0 {
      var k := Accepted(Next(script, n), n);
      TailUses(script);
      assert script != [] ==> Used(script, Tail(script)) == [script[0]];
      assert 0 in Used(script, Tail(script)) <==> k == 0;
      if k > 0 {
        WriteRunUses(Tail(script), n - k);
        UsedSplits(script, Tail(script), WriteRun(script, n).script);
      }
      hide Used, Uses;
    }
  }

  /**
   * Success is reported exactly for a whole frame, if and only if the send reports an error or none of
   * the writes it made returned 0.
   */
  lemma SendIsHonest(script: seq<int>, src: seq<byte>)
    ensures var s := Send(script, src);
            (s.rc == |src| <==> s.bytes == Frame(src)) <==> s.rc == -1 || 0 !in Used(script, s.script)
  {
    var header := WriteRun(script, 2);
    var body := WriteRun(header.script, |src|);
    WriteRunUses(script, 2);
    WriteRunUses(header.script, |src|);
    UsedSplits(script, header.script, body.script);
    hide WriteRun, Header, Used, Uses;
    assert Header(|src|)[..2] == Header(|src|) && src[..|src|] == src;
    assert |Frame(src)| == 2 + |src|;
  }

  /**
   * A write that returns 0 loses the header and still counts as success: the reader takes data for a length.
   * On a blocking stream socket a write of more than 0 bytes is hardly ever answered so.
   */
  lemma RefusedHeaderDesyncs()
    ensures var s := Send([0], [0, 1, 7]);
            s.rc == 3 && s.bytes == [0, 1, 7] && Recv(s.bytes, 1500) == Received(1, [7], [])
  {
    var src: seq<byte> := [0, 1, 7];
    var header, body := WriteRun([0], 2), WriteRun([], 3);
    assert header == Progress(0, true, 0, []) && body == Progress(3, false, 0, []);
    assert Header(3)[..0] + src[..3] == src;
    assert src[..2] == [0, 1] && src[2..] == [7] && src[2..][..1] == [7] && src[2..][1..] == [];
  }

  /** What one receive makes of a stream: its result, the bytes it stores, and the bytes it leaves. */
  datatype Received = Received(rc: int, data: seq<byte>, rest: seq<byte>)

  function RecvBody(n: nat, body: seq<byte>, maxLen: nat): Received {
    var m := Min(n, maxLen);
    if m == 0 then Received(0, [], body)
    else if |body| < m then Received(0, body, [])
    else Received(n, body[..m], body[Min(n, |body|)..])
  }

  function Recv(s: seq<byte>, maxLen: nat): Received {
    if |s| < 2 then Received(0, [], []) else RecvBody(LengthOf(s[..2]), s[2..], maxLen)
  }

  /** A receive for every pattern of results; `got` is what it makes of the stream. */
  datatype Taken = Taken(got: Received, script: seq<int>)

  /** What fits of the packet, and the rest thrown away, whatever comes of that. */
  function TakeBody(script: seq<int>, n: nat, body: seq<byte>, maxLen: nat): Taken {
    var m := Min(n, maxLen);
    var read := ReadRun(script, m, |body|);
    if m == 0 then Taken(Received(0, [], body), script)
    else if read.stopped then Taken(Received(read.rc, body[..read.done], body[read.done..]), read.script)
    else if n <= maxLen then Taken(Received(n, body[..m], body[m..]), read.script)
    else
      var thrown := ReadRun(read.script, n - maxLen, |body[m..]|);
      Taken(Received(n, body[..m], body[m..][thrown.done..]), thrown.script)
  }

  function Take(script: seq<int>, s: seq<byte>, maxLen: nat): Taken {
    var header := ReadRun(script, 2, |s|);
    if header.stopped then Taken(Received(header.rc, [], s[header.done..]), header.script)
    else TakeBody(header.script, LengthOf(s[..2]), s[2..], maxLen)
  }

  /** The second half of _network_recv_packet. */
  method ReadBody(sock: Socket, dst: array<byte>, n: nat, maxLen: nat) returns (rc: int)
    requires maxLen <= dst.Length
    modifies sock, dst
    ensures var t := TakeBody(old(sock.script), n, old(sock.stream), maxLen);
            && rc == t.got.rc && sock.stream == t.got.rest && sock.script == t.script
            && |t.got.data| <= maxLen && dst[..] == t.got.data + old(dst[|t.got.data|..])
  {
    hide ReadRun;
    ghost var script, body := sock.script, sock.stream;
    ReadRunEnd(script, |body|);
    rc := sock.ReadAll(dst, Min(n, maxLen));
    if rc <= 0 {
      return;
    }
    if n > maxLen {
      var dummy := new byte[n - maxLen];
      var ignored := sock.ReadAll(dummy, n - maxLen);
    }
    rc := n;
  }

  /** _network_recv_packet: two bytes of length, then the packet. */
  method RecvPacket(sock: Socket, dst: array<byte>, maxLen: nat) returns (rc: int)
    requires maxLen <= dst.Length
    modifies sock, dst
    ensures var t := Take(old(sock.script), old(sock.stream), maxLen);
            && rc == t.got.rc && sock.stream == t.got.rest && sock.script == t.script
            && |t.got.data| <= maxLen && dst[..] == t.got.data + old(dst[|t.got.data|..])
  {
    hide ReadRun, TakeBody;
    var header := new byte[2];
    rc := sock.ReadAll(header, 2);
    if rc <= 0 {
      return;
    }
    rc := ReadBody(sock, dst, LengthOf(header[..]), maxLen);
  }

  /** If no call fails, all that matters is the stream. */
  lemma TakeHealthy(script: seq<int>, s: seq<byte>, maxLen: nat)
    requires NoError(script)
    ensures var t := Take(script, s, maxLen); t.got == Recv(s, maxLen) && NoError(t.script)
  {
    ReadRunHealthy(script, 2, |s|);
    if |s| >= 2 {
      TakeBodyHealthy(ReadRun(script, 2, |s|).script, LengthOf(s[..2]), s[2..], maxLen);
    }
    hide ReadRun, NoError, TakeBody, RecvBody, LengthOf;
  }

  lemma TakeBodyHealthy(script: seq<int>, n: nat, body: seq<byte>, maxLen: nat)
    requires NoError(script)
    ensures var t := TakeBody(script, n, body, maxLen); t.got == RecvBody(n, body, maxLen) && NoError(t.script)
  {
    var m := Min(n, maxLen);
    ReadRunHealthy(script, m, |body|);
    var read := ReadRun(script, m, |body|);
    if !read.stopped && n > maxLen {
      ReadRunHealthy(read.script, n - maxLen, |body[m..]|);
    }
    hide ReadRun, NoError;
  }

  /** With enough bytes there, a run stops exactly when one of the calls it made failed. */
  lemma {:induction false} ReadRunUses(script: seq<int>, n: nat, available: nat)
    requires n <= available
    ensures var p := ReadRun(script, n, available);
            && Uses(script, p.script) && (p.stopped ==> p.rc == -1 && p.done < n)
            && (p.stopped <==> !NoError(Used(script, p.script)))
    decreases n
  {
    hide *;
    var k := Yielded(Next(script, n), n, available);
    if n > 0 {
      FirstCall(script, n, available);
      ReadRunStep(script, n, available);
      if k > 0 {
        ReadRunUses(Tail(script), n - k, available - k);
        UsesMore(script, Tail(script), ReadRun(Tail(script), n - k, available - k).script);
        LaterIs(ReadRun(Tail(script), n - k, available - k), k);
      }
    } else {
      NothingUsed(script);
      ReadRunEnd(script, available);
    }
  }

  lemma LaterIs(p: Progress, done: nat)
    ensures Later(p, done) == p.(done := done + p.done)
  {
  }

  /** The first call yields a byte, or fails: there is one to be had. */
  lemma FirstCall(script: seq<int>, n: nat, available: nat)
    requires 0 < n <= available
    ensures var k := Yielded(Next(script, n), n, available);
            (k > 0 || k == -1) && (k > 0 <==> NoError(Used(script, Tail(script)))) && Uses(script, Tail(script))
  {
    HeadFails(script);
    TailUses(script);
    hide NoError, Used, Uses;
  }

  lemma UsesMore(a: seq<int>, b: seq<int>, c: seq<int>)
    requires Uses(a, b) && Uses(b, c)
    ensures Uses(a, c) && (NoError(Used(a, c)) <==> NoError(Used(a, b)) && NoError(Used(b, c)))
  {
    hide *;
    UsedSplits(a, b, c);
    NoErrorConcat(Used(a, b), Used(b, c));
  }

  lemma NothingUsed(script: seq<int>)
    ensures Uses(script, script) && NoError(Used(script, script))
  {
  }

  lemma HeadFails(script: seq<int>)
    ensures NoError(Used(script, Tail(script))) <==> script == [] || script[0] >= 0
  {
    if script != [] {
      assert Used(script, Tail(script)) == [script[0]];
      OneFails(script[0]);
    } else {
      assert Used(script, Tail(script)) == [];
    }
  }

  lemma OneFails(v: int)
    ensures NoError([v]) <==> v >= 0
  {
    assert v in [v];
  }

  lemma TailUses(script: seq<int>)
    ensures Uses(script, Tail(script))
  {
  }

  lemma NoErrorConcat(a: seq<int>, b: seq<int>)
    ensures NoError(a + b) <==> NoError(a) && NoError(b)
  {
    assert forall v :: v in a + b <==> v in a || v in b;
  }

  /**
   * A packet that is there, whatever the calls do: the result is its length or an error; if it is the
   * length, what fits of the packet has been stored; and the reader is left at the packet's end exactly
   * when no call failed. A failure while the rest of a long packet is thrown away is not reported.
   */
  lemma TakeOfAPacket(script: seq<int>, p: seq<byte>, rest: seq<byte>, maxLen: nat)
    requires 1 <= |p| <= 65535 && maxLen > 0
    ensures var t := Take(script, Frame(p) + rest, maxLen);
            && (t.got.rc == |p| || t.got.rc == -1)
            && (t.got.rc == |p| ==> t.got.data == p[..Fitting(|p|, maxLen)])
            && (t.got.rest == rest <==> NoError(Used(script, t.script)))
            && (t.got.rc == |p| && t.got.rest != rest ==> |p| > maxLen)
  {
    hide *;
    var s := Frame(p) + rest;
    var header := ReadRun(script, 2, |s|);
    FrameParts(p, rest);
    TakeIs(script, s, maxLen);
    ReadRunUses(script, 2, |s|);
    if header.stopped {
      Remaining(s, header.done, rest);
    } else {
      TakeOfABody(header.script, p, rest, maxLen);
      var t := TakeBody(header.script, |p|, p + rest, maxLen);
      UsesMore(script, header.script, t.script);
    }
  }

  lemma TakeIs(script: seq<int>, s: seq<byte>, maxLen: nat)
    ensures var header := ReadRun(script, 2, |s|);
            if header.stopped then Take(script, s, maxLen) == Taken(Received(header.rc, [], s[header.done..]), header.script)
            else |s| >= 2 && Take(script, s, maxLen) == TakeBody(header.script, LengthOf(s[..2]), s[2..], maxLen)
  {
    hide ReadRun, TakeBody, LengthOf;
  }

  lemma Remaining(s: seq<byte>, n: nat, rest: seq<byte>)
    requires n < |s| - |rest|
    ensures s[n..] != rest
  {
    assert |s[n..]| > |rest|;
  }

  lemma TakeOfABody(script: seq<int>, p: seq<byte>, rest: seq<byte>, maxLen: nat)
    requires |p| >= 1 && maxLen > 0
    ensures var t := TakeBody(script, |p|, p + rest, maxLen);
            && Uses(script, t.script)
            && (t.got.rc == |p| || t.got.rc == -1)
            && (t.got.rc == |p| ==> t.got.data == p[..Fitting(|p|, maxLen)])
            && (t.got.rest == rest <==> NoError(Used(script, t.script)))
            && (t.got.rc == |p| && t.got.rest != rest ==> |p| > maxLen)
  {
    hide *;
    var body, m := p + rest, Fitting(|p|, maxLen);
    var read := ReadRun(script, m, |body|);
    BodySlices(p, rest, m);
    ReadRunUses(script, m, |body|);
    TakeBodyIs(script, |p|, body, maxLen);
    if read.stopped {
      Remaining(body, read.done, rest);
    } else if |p| > maxLen {
      var thrown := ReadRun(read.script, |p| - maxLen, |body[m..]|);
      ReadRunUses(read.script, |p| - maxLen, |body[m..]|);
      UsesMore(script, read.script, thrown.script);
      if thrown.stopped {
        Remaining(body[m..], thrown.done, rest);
      }
    }
  }

  /** How much of a packet of `n` bytes is stored. */
  function Fitting(n: nat, maxLen: nat): (m: nat)
    ensures m == Min(n, maxLen) && m <= n && m <= maxLen && (m == n || m == maxLen) && (n > 0 && maxLen > 0 ==> m > 0)
  {
    Min(n, maxLen)
  }

  lemma BodySlices(p: seq<byte>, rest: seq<byte>, m: nat)
    requires m <= |p|
    ensures (p + rest)[..m] == p[..m] && (p + rest)[|p|..] == rest && (p + rest)[m..][|p| - m..] == rest
  {
  }

  /** The three ways through the second half. */
  lemma TakeBodyIs(script: seq<int>, n: nat, body: seq<byte>, maxLen: nat)
    requires n > 0 && maxLen > 0
    ensures var m := Fitting(n, maxLen);
            var t, read := TakeBody(script, n, body, maxLen), ReadRun(script, m, |body|);
            && (read.stopped ==> t == Taken(Received(read.rc, body[..read.done], body[read.done..]), read.script))
            && (!read.stopped ==> m <= |body|)
            && (!read.stopped && n <= maxLen ==> t == Taken(Received(n, body[..m], body[m..]), read.script))
            && (!read.stopped && n > maxLen ==>
                  var thrown := ReadRun(read.script, n - maxLen, |body[m..]|);
                  t == Taken(Received(n, body[..m], body[m..][thrown.done..]), thrown.script))
  {
    hide ReadRun;
  }

  // ----- round trips ---------------------------------------------------------------------------

  lemma FrameParts(p: seq<byte>, rest: seq<byte>)
    ensures var s := Frame(p) + rest;
            |s| >= 2 && LengthOf(s[..2]) == |p| % 65536 && s[2..] == p + rest
  {
    var s := Frame(p) + rest;
    HeaderLength(|p|);
    hide LengthOf, Header;
    assert s[..2] == Header(|p|);
  }

  /** A packet arrives whole, counted and followed by the next one exactly when it has 1 to 65535 bytes and fits. */
  lemma FrameRoundTrip(p: seq<byte>, rest: seq<byte>, maxLen: nat)
    ensures var r := Recv(Frame(p) + rest, maxLen);
            r.rc > 0 && r == Received(|p|, p, rest) <==> 1 <= |p| <= Min(maxLen, 65535)
  {
    FrameParts(p, rest);
    hide LengthOf, Frame;
    var n := |p| % 65536;
    var m := Min(n, maxLen);
    if 1 <= |p| <= Min(maxLen, 65535) {
      assert n == |p| && (p + rest)[..n] == p && (p + rest)[n..] == rest;
    } else if |p| > 65535 {
      assert n != |p|;
    }
  }

  /** The reader is left at a packet boundary exactly when the length fits 16 bits and there is room for a byte. */
  lemma BoundaryKept(p: seq<byte>, rest: seq<byte>, maxLen: nat)
    ensures Recv(Frame(p) + rest, maxLen).rest == rest <==> |p| <= 65535 && (maxLen > 0 || p == [])
  {
    FrameParts(p, rest);
    hide LengthOf, Frame;
    var n, s := |p| % 65536, p + rest;
    if |p| <= 65535 {
      assert n == |p| && s[n..] == rest;
    }
    assert s[0..] == s;
  }

  /** A stream that ends inside a packet reads like one that has ended: nothing of it is left, and nothing
      counts as received, though the buffer holds the bytes that came. */
  lemma TruncatedLooksClosed(p: seq<byte>, k: nat, maxLen: nat)
    requires |p| <= 65535 && k < 2 + Min(|p|, maxLen)
    ensures Recv(Frame(p)[..k], maxLen) == Received(0, if k < 2 then [] else p[..k - 2], [])
  {
    var s := Frame(p)[..k];
    FrameParts(p, []);
    assert Frame(p) + [] == Frame(p);
    hide LengthOf, Frame;
    if k >= 2 {
      assert s[..2] == Frame(p)[..2] && s[2..] == Frame(p)[2..][..k - 2];
      assert p + [] == p;
    }
  }

  /** A packet too long for the buffer is cut, reported at its full length, and skipped. */
  lemma LongPacketIsCut(p: seq<byte>, rest: seq<byte>, maxLen: nat)
    requires 0 < maxLen < |p| <= 65535
    ensures Recv(Frame(p) + rest, maxLen) == Received(|p|, p[..maxLen], rest)
  {
    FrameParts(p, rest);
    hide LengthOf, Frame;
    assert (p + rest)[..maxLen] == p[..maxLen] && (p + rest)[|p|..] == rest;
  }

  /** An empty packet reads as the end of the stream does. */
  lemma EmptyPacketLooksClosed(rest: seq<byte>, maxLen: nat)
    ensures Recv(Frame([]) + rest, maxLen) == Received(0, [], rest)
    ensures Recv([], maxLen) == Received(0, [], [])
  {
    FrameParts([], rest);
    hide LengthOf, Frame;
    assert [] + rest == rest;
  }

  function Encode(packets: seq<seq<byte>>): seq<byte> {
    if packets == [] then [] else Frame(packets[0]) + Encode(packets[1..])
  }

  /** The results of `k` receives in a row. */
  function RecvMany(s: seq<byte>, k: nat, maxLen: nat): (r: seq<Received>)
    ensures |r| == k
    decreases k
  {
    if k == 0 then []
    else
      var first := Recv(s, maxLen);
      [first] + RecvMany(first.rest, k - 1, maxLen)
  }

  /** Any list of packets that fit comes out as it went in, and every receive ends at a packet boundary. */
  lemma ListRoundTrip(packets: seq<seq<byte>>, rest: seq<byte>, maxLen: nat)
    requires forall p <- packets :: 1 <= |p| <= Min(maxLen, 65535)
    ensures var r := RecvMany(Encode(packets) + rest, |packets|, maxLen);
            forall i | 0 <= i < |packets| :: r[i] == Received(|packets[i]|, packets[i], Encode(packets[i + 1..]) + rest)
  {
    forall i | 0 <= i < |packets|
      ensures RecvMany(Encode(packets) + rest, |packets|, maxLen)[i]
           == Received(|packets[i]|, packets[i], Encode(packets[i + 1..]) + rest)
    {
      PacketRoundTrip(packets, rest, maxLen, i);
    }
    hide *;
  }

  lemma {:induction false} PacketRoundTrip(packets: seq<seq<byte>>, rest: seq<byte>, maxLen: nat, i: nat)
    requires i < |packets| && forall p <- packets :: 1 <= |p| <= Min(maxLen, 65535)
    ensures RecvMany(Encode(packets) + rest, |packets|, maxLen)[i]
         == Received(|packets[i]|, packets[i], Encode(packets[i + 1..]) + rest)
    decreases i
  {
    hide *;
    FirstRoundTrip(packets, rest, maxLen);
    if i > 0 {
      PacketRoundTrip(packets[1..], rest, maxLen, i - 1);
      assert packets[1..][i..] == packets[i + 1..];
    }
  }

  lemma FirstRoundTrip(packets: seq<seq<byte>>, rest: seq<byte>, maxLen: nat)
    requires packets != [] && 1 <= |packets[0]| <= Min(maxLen, 65535)
    ensures var after := Encode(packets[1..]) + rest;
            RecvMany(Encode(packets) + rest, |packets|, maxLen) ==
            [Received(|packets[0]|, packets[0], after)] + RecvMany(after, |packets| - 1, maxLen)
  {
    var p, after := packets[0], Encode(packets[1..]) + rest;
    assert Encode(packets) + rest == Frame(p) + after;
    FrameRoundTrip(p, after, maxLen);
    hide Recv, Frame, Encode;
  }

  /** The writes of a list of packets, one after the other. */
  function SendMany(script: seq<int>, packets: seq<seq<byte>>): seq<byte>
    decreases |packets|
  {
    if packets == [] then []
    else
      var first := Send(script, packets[0]);
      first.bytes + SendMany(first.script, packets[1..])
  }

  /** Whatever sizes the writes move, the stream carries the frames in order. */
  lemma {:induction false} SendManyEncodes(script: seq<int>, packets: seq<seq<byte>>)
    requires NoRefusal(script)
    ensures SendMany(script, packets) == Encode(packets)
    decreases |packets|
  {
    if packets != [] {
      SendWhole(script, packets[0]);
      SendManyEncodes(Send(script, packets[0]).script, packets[1..]);
      hide Send;
    }
  }

  /** End to end: what is sent with any short writes is what is received with any short reads. */
  lemma SentIsReceived(script: seq<int>, packets: seq<seq<byte>>, maxLen: nat, i: nat)
    requires NoRefusal(script) && i < |packets|
    requires forall p <- packets :: 1 <= |p| <= Min(maxLen, 65535)
    ensures var r := RecvMany(SendMany(script, packets), |packets|, maxLen)[i];
            r.rc == |packets[i]| && r.data == packets[i] && r.rest == Encode(packets[i + 1..])
  {
    hide SendMany, Encode, RecvMany;
    SendManyEncodes(script, packets);
    ListRoundTrip(packets, [], maxLen);
    assert Encode(packets) + [] == Encode(packets);
    assert Encode(packets[i + 1..]) + [] == Encode(packets[i + 1..]);
  }
}
