/** The checksum routines applied to packets in place: the STCP segment and the router's IP header. */
module Headers {
  import opened Options
  import opened Bytes
  import opened OnesComplement
  import opened Checksum

  // ----- tcp_sum.c ------------------------------------------------------------------------------------

  /** Write a 16-bit field the way a little-endian machine does. */
  method StoreField(a: array<byte>, k: nat, v: nat)
    requires FieldAt(a[..], k) && v <= 0xffff
    modifies a
    ensures a[..] == Store(old(a[..]), k, v)
  {
    a[k] := v % 256;
    a[k + 1] := v / 256;
  }

  /** `_mysock_set_checksum` at the end with address `local`, sending to `peer`; fails with the sum. */
  method SetChecksum(packet: array<byte>, local: seq<byte>, peer: seq<byte>) returns (ok: bool)
    requires |local| == 4 && |peer| == 4 && packet.Length >= TCP_HEADER
    modifies packet
    ensures var s := old(packet[..]);
            && ok == CanSum(local, peer, s)
            && packet[..] == if ok then Store(s, TH_SUM, TcpValue(Summed(local, peer, s))) else s
  {
    var sum := TcpChecksum(local, peer, packet[..]);
    if sum.None? {
      return false;
    }
    StoreField(packet, TH_SUM, sum.value);
    ok := true;
  }

  /** `_mysock_verify_checksum` at the end with address `local`, receiving from `peer`. */
  method VerifyChecksum(packet: array<byte>, local: seq<byte>, peer: seq<byte>) returns (ok: Option<bool>)
    requires |local| == 4 && |peer| == 4 && packet.Length >= TCP_HEADER
    ensures ok == if CanSum(peer, local, packet[..])
                  then Some(TcpAccepts(PseudoHeader(peer, local, packet.Length), packet[..], TH_SUM))
                  else None
  {
    var sum := TcpChecksum(peer, local, packet[..]);
    assert Native(packet[..], TH_SUM) == Word(packet[TH_SUM + 1], packet[TH_SUM]);
    if sum.None? {
      return None;
    }
    ok := Some(sum.value == Word(packet[TH_SUM + 1], packet[TH_SUM]));
  }

  /** A segment set at one end is accepted at the other, where the two addresses have changed sides,
      and its one's complement total is 0xffff; the receiver can sum it exactly if the sender could. */
  lemma ReceiverAcceptsSegment(s: seq<byte>, sender: seq<byte>, receiver: seq<byte>)
    requires |sender| == 4 && |receiver| == 4 && |s| >= TCP_HEADER
    ensures var p, all := PseudoHeader(sender, receiver, |s|), Summed(sender, receiver, s);
            var t := Store(s, TH_SUM, TcpValue(all));
            TcpAccepts(p, t, TH_SUM) && Ones(LeSum(p + t)) == 0xffff && Summed(sender, receiver, t) == all
    ensures var t := Store(s, TH_SUM, TcpValue(Summed(sender, receiver, s)));
            CanSum(sender, receiver, t) == CanSum(sender, receiver, s)
  {
    var p := PseudoHeader(sender, receiver, |s|);
    var v := TcpValue(p + Zeroed(s, TH_SUM));
    SetThenVerify(p, s, TH_SUM);
    PseudoNotZero(sender, receiver, |s|);
    TcpAcceptsExactly(p, Store(s, TH_SUM, v), TH_SUM);
    StoreZeroes(s, TH_SUM, v);
    hide LeSum;
    hide Ones;
    hide TcpAccepts;
  }

  /** The protocol octet makes the pseudo-header sum positive. */
  lemma PseudoNotZero(src: seq<byte>, dst: seq<byte>, len: nat)
    requires |src| == 4 && |dst| == 4
    ensures LeSum(PseudoHeader(src, dst, len)) > 0
  {
    var p := PseudoHeader(src, dst, len);
    var tail := [0, IPPROTO_TCP, len % 65536 / 256, len % 256];
    LeSumConcat(src + dst, tail);
    assert src + dst + tail == p;
    assert LeSum(tail) >= Word(IPPROTO_TCP, 0);
  }

  /**
   * FIN_WAIT_1 and LAST_ACK receive into a buffer for the header alone, but the test of stcp_network_recv
   * runs over the whole length: the octets `behind` the buffer stand in for the payload. It passes exactly
   * if they sum to the same residue.
   */
  lemma OverreadPassesExactly(p: seq<byte>, t: seq<byte>, behind: seq<byte>)
    requires |p| % 2 == 0 && LeSum(p) > 0 && |t| == TCP_HEADER + |behind| && TcpAccepts(p, t, TH_SUM)
    ensures TcpAccepts(p, t[..TCP_HEADER] + behind, TH_SUM)
       <==> LeSum(behind) % 0xffff == LeSum(t[TCP_HEADER..]) % 0xffff
  {
    hide *;
    var h, lost := t[..TCP_HEADER], t[TCP_HEADER..];
    SumWithTail(p, t, lost);
    SumWithTail(p, t, behind);
    assert t == h + lost;
    TcpAcceptsExactly(p, t, TH_SUM);
    TcpAcceptsExactly(p, h + behind, TH_SUM);
    TailsAgree(LeSum(p) + LeSum(h), LeSum(lost), LeSum(behind));
  }

  lemma SumWithTail(p: seq<byte>, t: seq<byte>, tail: seq<byte>)
    requires |p| % 2 == 0 && |t| >= TCP_HEADER
    ensures var u := t[..TCP_HEADER] + tail;
            && FieldAt(u, TH_SUM) && FieldAt(t, TH_SUM) && Native(u, TH_SUM) == Native(t, TH_SUM)
            && LeSum(p + u) == LeSum(p) + LeSum(t[..TCP_HEADER]) + LeSum(tail)
  {
    hide LeSum;
    LeSumConcat(p, t[..TCP_HEADER] + tail);
    LeSumConcat(t[..TCP_HEADER], tail);
  }

  /** What may stand in for `a` at the end of a sum that is all ones. */
  lemma TailsAgree(front: nat, a: nat, b: nat)
    requires front > 0 && Ones(front + a) == 0xffff
    ensures Ones(front + b) == 0xffff <==> b % 0xffff == a % 0xffff
  {
    OnesResidue(front + a);
    OnesResidue(front + b);
    ResidueOfSum(front, a);
    ResidueOfSum(front, b);
    hide Ones;
  }

  lemma ResidueOfSum(m: nat, n: nat)
    ensures (m + n) % 0xffff == 0 <==> m % 0xffff + n % 0xffff == 0 || m % 0xffff + n % 0xffff == 0xffff
  {
    var q, r := m / 0xffff + n / 0xffff, m % 0xffff + n % 0xffff;
    assert m + n == 0xffff * q + r;
  }

  // ----- sr_router.c: the IP header --------------------------------------------------------------------

  const IP_HEADER: nat := 20
  const IP_TTL: nat := 8
  const IP_SUM: nat := 10

  predicate IsHeader(h: seq<byte>) {
    |h| == IP_HEADER
  }

  /** Decrement of a uint8_t. */
  function Dec8(x: byte): byte {
    if x == 0 then 255 else x - 1
  }

  /** The header after the TTL has gone down by one (as a uint8_t) and the checksum was redone. */
  function Forwarded(h: seq<byte>): (g: seq<byte>)
    requires IsHeader(h)
    ensures IsHeader(g)
  {
    var t := h[IP_TTL := Dec8(h[IP_TTL])];
    Store(t, IP_SUM, CksumValue(Zeroed(t, IP_SUM)))
  }

  /** Validation on arrival; a header that fails is left with a zero checksum field. */
  method Validate(h: array<byte>) returns (ok: bool)
    requires IsHeader(h[..])
    modifies h
    ensures ok <==> RouterAccepts(old(h[..]), IP_SUM)
    ensures h[..] == if ok then old(h[..]) else Zeroed(old(h[..]), IP_SUM)
  {
    ghost var before := h[..];
    StoreZeroes(before, IP_SUM, Native(before, IP_SUM));
    var sum: nat := Word(h[IP_SUM + 1], h[IP_SUM]);
    assert sum == Native(before, IP_SUM);
    StoreField(h, IP_SUM, 0);
    var again := Cksum(h[..]);
    LeSumBound(h[..]);
    if sum != again {
      return false;
    }
    StoreField(h, IP_SUM, sum);
    return true;
  }

  /** Forwarding: decrement the TTL, zero the field, recompute. */
  method Forward(h: array<byte>)
    requires IsHeader(h[..])
    modifies h
    ensures h[..] == Forwarded(old(h[..]))
  {
    hide CksumValue;
    hide BeSum;
    ghost var before := h[..];
    h[IP_TTL] := Dec8(h[IP_TTL]);
    ghost var t := h[..];
    assert t == before[IP_TTL := Dec8(before[IP_TTL])];
    StoreZeroes(t, IP_SUM, 0);
    StoreField(h, IP_SUM, 0);
    assert h[..] == Zeroed(t, IP_SUM);
    var sum := Cksum(h[..]);
    LeSumBound(h[..]);
    StoreZeroes(t, IP_SUM, sum);
    StoreField(h, IP_SUM, sum);
    hide Store;
    hide Zeroed;
  }

  /** The next router accepts what this one forwards, whatever the old checksum was; nothing but the TTL in
      octet 8 and the checksum in octets 10 and 11 changes, and the TTL goes down by one, from 0 to 255. */
  lemma NextHopAccepts(h: seq<byte>)
    requires IsHeader(h)
    ensures var g := Forwarded(h);
            && |g| == |h| == 20 && RouterAccepts(g, 10) && Ones(BeSum(g)) == 0xffff
            && (forall i | 0 <= i < 20 && i != 8 && i != 10 && i != 11 :: g[i] == h[i])
            && g[8] == if h[8] == 0 then 255 else h[8] - 1
  {
    var t := h[IP_TTL := Dec8(h[IP_TTL])];
    FilledHeaderPasses(t, IP_SUM);
    hide BeSum;
    hide RouterAccepts;
    hide Ones;
  }
}
