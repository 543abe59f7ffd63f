/** What the packets in flight towards one endpoint say, and how appending a packet changes it. */
module StcpChannel {
  import opened Bytes
  import opened StcpTypes
  import opened StcpSystem

  /** A segment as the control loop sends it. */
  predicate WellShaped(nonEmpty: bool, p: Packet) {
    && (p.flags == TH_DATA || p.flags == TH_ACK || p.flags == TH_FIN)
    && |p.payload| <= MSS
    && (p.flags != TH_DATA ==> p.payload == [])
    && (p.flags == TH_DATA && nonEmpty ==> p.payload != [])
  }

  predicate AllShaped(nonEmpty: bool, ch: seq<Packet>) {
    forall p <- ch :: WellShaped(nonEmpty, p)
  }

  predicate NoFin(ch: seq<Packet>) {
    forall p <- ch :: p.flags != TH_FIN
  }

  /** The data bytes in flight. */
  function Payload(ch: seq<Packet>): seq<byte> {
    if ch == [] then [] else ch[0].payload + Payload(ch[1..])
  }

  /** Data segments carry consecutive sequence numbers from `n` on. */
  predicate Numbered(ch: seq<Packet>, n: nat) {
    ch == [] ||
    ((IsData(ch[0]) ==> ch[0].seqno == n) && Numbered(ch[1..], n + |ch[0].payload|))
  }

  /** The acknowledgement numbers in flight climb from `lo` to exactly `hi`, strictly if `strict`. */
  predicate AckChain(strict: bool, ch: seq<Packet>, lo: nat, hi: nat)
    decreases |ch|
  {
    if ch == [] then lo == hi
    else if ch[0].flags == TH_ACK then
      && lo <= ch[0].ack
      && (strict ==> lo < ch[0].ack)
      && AckChain(strict, ch[1..], ch[0].ack, hi)
    else AckChain(strict, ch[1..], lo, hi)
  }

  lemma {:induction false} PayloadConcat(a: seq<Packet>, b: seq<Packet>)
    ensures Payload(a + b) == Payload(a) + Payload(b)
  {
    if a == [] {
      assert a + b == b;
    } else {
      assert (a + b)[0] == a[0] && (a + b)[1..] == a[1..] + b;
      PayloadConcat(a[1..], b);
    }
  }

  lemma {:induction false} PayloadPush(ch: seq<Packet>, p: Packet)
    ensures Payload(ch + [p]) == Payload(ch) + p.payload
  {
    PayloadConcat(ch, [p]);
    assert Payload([p]) == p.payload + Payload([]);
  }

  lemma {:induction false} NumberedPush(ch: seq<Packet>, n: nat, p: Packet)
    requires Numbered(ch, n)
    requires IsData(p) ==> p.seqno == n + |Payload(ch)|
    ensures Numbered(ch + [p], n)
  {
    if ch == [] {
      assert Numbered([p][1..], n + |p.payload|);
    } else {
      assert (ch + [p])[0] == ch[0] && (ch + [p])[1..] == ch[1..] + [p];
      NumberedPush(ch[1..], n + |ch[0].payload|, p);
    }
  }

  lemma {:induction false} AckChainPush(strict: bool, ch: seq<Packet>, lo: nat, hi: nat, p: Packet)
    requires AckChain(strict, ch, lo, hi)
    requires p.flags == TH_ACK ==> hi <= p.ack && (strict ==> hi < p.ack)
    ensures AckChain(strict, ch + [p], lo, if p.flags == TH_ACK then p.ack else hi)
    decreases |ch|
  {
    if ch == [] {
      assert AckChain(strict, [p][1..], if p.flags == TH_ACK then p.ack else lo, if p.flags == TH_ACK then p.ack else hi);
    } else {
      assert (ch + [p])[0] == ch[0] && (ch + [p])[1..] == ch[1..] + [p];
      AckChainPush(strict, ch[1..], if ch[0].flags == TH_ACK then ch[0].ack else lo, hi, p);
    }
  }

  /** No acknowledgement in flight is below `lo` or above `hi`, and later ones are not smaller. */
  lemma {:induction false} AckChainBounds(strict: bool, ch: seq<Packet>, lo: nat, hi: nat)
    requires AckChain(strict, ch, lo, hi)
    ensures lo <= hi
    ensures forall i | 0 <= i < |ch| && ch[i].flags == TH_ACK :: lo <= ch[i].ack <= hi
    ensures forall i, j | 0 <= i < j < |ch| && ch[i].flags == TH_ACK && ch[j].flags == TH_ACK :: ch[i].ack <= ch[j].ack
    ensures strict && (exists p <- ch :: p.flags == TH_ACK) ==> lo < hi
    decreases |ch|
  {
    if ch != [] {
      var mid := if ch[0].flags == TH_ACK then ch[0].ack else lo;
      AckChainBounds(strict, ch[1..], mid, hi);
      assert forall i | 0 < i < |ch| :: ch[i] == ch[1..][i - 1];
      if strict && exists p <- ch :: p.flags == TH_ACK {
        if ch[0].flags != TH_ACK {
          var p :| p in ch && p.flags == TH_ACK;
          assert p in ch[1..];
        }
      }
    }
  }

  /** With no acknowledgement in flight the chain has length zero. */
  lemma {:induction false} AckChainNone(strict: bool, ch: seq<Packet>, lo: nat, hi: nat)
    requires AckChain(strict, ch, lo, hi)
    requires forall p <- ch :: p.flags != TH_ACK
    ensures lo == hi
    decreases |ch|
  {
    if ch != [] {
      AckChainNone(strict, ch[1..], lo, hi);
    }
  }

  /** A channel without data segments carries no bytes. */
  lemma {:induction false} NoDataNoPayload(nonEmpty: bool, ch: seq<Packet>)
    requires AllShaped(nonEmpty, ch) && NoData(ch)
    ensures Payload(ch) == []
  {
    if ch != [] {
      assert ch[0] in ch;
      NoDataNoPayload(nonEmpty, ch[1..]);
    }
  }

  /** With non-empty segments, a channel without bytes carries no data segment. */
  lemma {:induction false} NoPayloadNoData(ch: seq<Packet>)
    requires AllShaped(true, ch) && Payload(ch) == []
    ensures NoData(ch)
  {
    if ch != [] {
      assert ch[0] in ch && |ch[0].payload| <= |Payload(ch)|;
      NoPayloadNoData(ch[1..]);
      assert forall p <- ch :: p == ch[0] || p in ch[1..];
    }
  }
}
