/** The two Internet checksum routines of the repository, what each promises, and that they agree. */
module Checksum {
  import opened Options
  import opened Bytes
  import opened OnesComplement

  /** The header field for a sum: its complement, with 0xffff for zero. */
  function FieldFor(sum: nat): (v: nat)
    ensures 0 < v <= 0xffff
  {
    var s := Swap16(0xffff - Ones(sum));
    if s == 0 then 0xffff else s
  }

  /** The checksum of `b` as the 16-bit number stored in the header field. */
  function CksumValue(b: seq<byte>): (v: nat)
    ensures 0 < v <= 0xffff
  {
    FieldFor(BeSum(b))
  }

  /** What `_mysock_tcp_checksum` returns for pseudo-header and segment `b` (sum field zero). */
  function TcpValue(b: seq<byte>): (v: nat)
    ensures v <= 0xffff
  {
    0xffff - Ones(LeSum(b))
  }

  /** The two routines put the same 16-bit field into the packet, except that `cksum` writes 0xffff
      where the other writes 0. */
  lemma RoutinesAgree(b: seq<byte>)
    ensures CksumValue(b) == if TcpValue(b) == 0 then 0xffff else TcpValue(b)
  {
    var l := Ones(LeSum(b));
    ByteOrderIndependence(b);
    SwapTwice(l);
    SwapTwice(0xffff - l);
    hide Swap16, Ones, BeSum, LeSum;
    assert Swap16(0xffff - Swap16(l)) == 0xffff - l;
  }

  // ----- a checksum field inside the data -----------------------------------------------------------

  predicate FieldAt(h: seq<byte>, k: nat) {
    k % 2 == 0 && k + 1 < |h|
  }

  /** The field as a little-endian machine loads it. */
  function Native(h: seq<byte>, k: nat): (v: nat)
    requires FieldAt(h, k)
    ensures v <= 0xffff
  {
    Word(h[k + 1], h[k])
  }

  function Store(h: seq<byte>, k: nat, v: nat): (g: seq<byte>)
    requires FieldAt(h, k) && v <= 0xffff
    ensures |g| == |h| && Native(g, k) == v
  {
    h[k := v % 256][k + 1 := v / 256]
  }

  function Zeroed(h: seq<byte>, k: nat): (g: seq<byte>)
    requires FieldAt(h, k)
    ensures |g| == |h|
  {
    h[k := 0][k + 1 := 0]
  }

  lemma StoreZeroes(h: seq<byte>, k: nat, v: nat)
    requires FieldAt(h, k) && v <= 0xffff
    ensures Zeroed(Store(h, k, v), k) == Zeroed(h, k) && Store(h, k, 0) == Zeroed(h, k)
    ensures Store(Zeroed(h, k), k, v) == Store(h, k, v) && Store(h, k, Native(h, k)) == h
  {
  }

  /** A sum splits into the field and the rest. */
  lemma {:induction false} FieldSplits(h: seq<byte>, k: nat)
    requires FieldAt(h, k)
    ensures BeSum(h) == BeSum(Zeroed(h, k)) + Swap16(Native(h, k))
    ensures LeSum(h) == LeSum(Zeroed(h, k)) + Native(h, k)
    decreases |h|
  {
    assert Native(h, k) / 256 == h[k + 1] && Native(h, k) % 256 == h[k];
    if k == 0 {
      assert Zeroed(h, k)[2..] == h[2..];
    } else {
      assert Zeroed(h, k)[2..] == Zeroed(h[2..], k - 2);
      assert Native(h[2..], k - 2) == Native(h, k);
      FieldSplits(h[2..], k - 2);
    }
  }

  /** Adding a field: the total is 0xffff exactly for the two complements of the rest. */
  lemma TotalIsAllOnes(rest: nat, v: nat)
    requires v <= 0xffff
    ensures Ones(rest + v) == 0xffff <==> rest + v > 0 && Complements(Ones(rest), v)
  {
    var q := OnesQuotient(rest);
    var r := Ones(rest);
    if v == 0xffff - r && rest + v > 0 {
      OnesUnique(rest + v, 0xffff, q);
    }
    if v == 0xffff && r == 0xffff {
      OnesUnique(rest + v, 0xffff, q + 1);
    }
    var p := OnesQuotient(rest + v);
    if Ones(rest + v) == 0xffff {
      Triple(p + 1 - q, r + v);
    }
  }

  /** r + v is a multiple of 0xffff. */
  predicate Complements(r: nat, v: nat) {
    r + v == 0 || r + v == 0xffff || r + v == 2 * 0xffff
  }

  lemma Triple(k: int, n: nat)
    requires n <= 2 * 0xffff
    ensures 0xffff * k == n ==> n == 0 || n == 0xffff || n == 2 * 0xffff
  {
  }

  // ----- sr_router.c: zero, recompute, compare ------------------------------------------------------

  /** The router's test of a header whose checksum field is at `k`. */
  predicate RouterAccepts(h: seq<byte>, k: nat)
    requires FieldAt(h, k)
  {
    Native(h, k) == CksumValue(Zeroed(h, k))
  }

  /** The test passes exactly on headers whose one's complement total is 0xffff and whose field is
      not 0x0000; a zero field fails although RFC 1071 would take it. */
  lemma RouterAcceptsExactly(h: seq<byte>, k: nat)
    requires FieldAt(h, k)
    ensures RouterAccepts(h, k) <==> Ones(BeSum(h)) == 0xffff && Native(h, k) != 0
  {
    hide BeSum;
    hide Swap16;
    hide Ones;
    hide Zeroed;
    hide Native;
    hide Complements;
    var v := Native(h, k);
    var rest := BeSum(Zeroed(h, k));
    FieldSplits(h, k);
    TotalIsAllOnes(rest, Swap16(v));
    CksumField(rest, v);
  }

  /** The field `cksum` writes, seen in network order, is the complement of the rest other than zero. */
  lemma CksumField(rest: nat, v: nat)
    requires v <= 0xffff
    ensures var s := Swap16(0xffff - Ones(rest));
            v == (if s == 0 then 0xffff else s) <==> Swap16(v) > 0 && rest + Swap16(v) > 0 && Complements(Ones(rest), Swap16(v))
    ensures Swap16(v) == 0 <==> v == 0
  {
    var r := Ones(rest);
    SwapTwice(v);
    SwapTwice(0xffff - r);
    SwapInjective(v, 0xffff - r);
    SwapInjective(v, 0xffff);
    assert Swap16(0xffff) == 0xffff;
    hide Swap16;
  }

  lemma SwapInjective(x: nat, y: nat)
    requires x <= 0xffff && y <= 0xffff
    ensures x == Swap16(y) <==> Swap16(x) == y
  {
    SwapTwice(x);
    SwapTwice(y);
  }

  /** A header whose field was filled by `cksum` has total 0xffff and passes the test. */
  lemma FilledHeaderPasses(h: seq<byte>, k: nat)
    requires FieldAt(h, k)
    ensures var g := Store(h, k, CksumValue(Zeroed(h, k)));
            RouterAccepts(g, k) && Ones(BeSum(g)) == 0xffff && Native(g, k) != 0
  {
    var g := Store(h, k, CksumValue(Zeroed(h, k)));
    StoreZeroes(h, k, CksumValue(Zeroed(h, k)));
    RouterAcceptsExactly(g, k);
  }

  /** Two values complement the same non-zero rest exactly when they are equal or the two zeros. */
  lemma SameComplement(r: nat, x: nat, y: nat)
    requires 0 < r <= 0xffff && x <= 0xffff && y <= 0xffff && Complements(r, x)
    ensures Complements(r, y) <==> x == y || (x == 0 && y == 0xffff) || (x == 0xffff && y == 0)
  {
  }

  lemma SwapSame(x: nat, y: nat)
    requires x <= 0xffff && y <= 0xffff
    ensures Swap16(x) == Swap16(y) <==> x == y
    ensures (Swap16(x) == 0 <==> x == 0) && (Swap16(x) == 0xffff <==> x == 0xffff)
  {
    SwapTwice(x);
    SwapTwice(y);
    SwapInjective(x, 0xffff);
    assert Swap16(0xffff) == 0xffff;
    hide Swap16;
  }

  /** Overwriting one other word of an accepted header goes unnoticed exactly when it swaps the two
      representations of zero or changes nothing. */
  lemma OneWordErrors(h: seq<byte>, k: nat, at: nat, w: nat)
    requires FieldAt(h, k) && FieldAt(h, at) && at != k && w <= 0xffff
    requires RouterAccepts(h, k)
    ensures RouterAccepts(Store(h, at, w), k)
       <==> (Native(h, at) == w || (Native(h, at) == 0 && w == 0xffff) || (Native(h, at) == 0xffff && w == 0))
  {
    hide *;
    var g := Store(h, at, w);
    var rest := BeSum(Zeroed(h, at));
    var x, y := Swap16(Native(h, at)), Swap16(w);
    StoreElsewhere(h, k, at, w);
    FieldSplits(h, at);
    RouterAcceptsExactly(h, k);
    RouterAcceptsExactly(g, k);
    FieldRemains(h, k, at);
    TotalIsAllOnes(rest, x);
    TotalIsAllOnes(rest, y);
    SameComplement(Ones(rest), x, y);
    SwapSame(Native(h, at), w);
    SwapSame(w, w);
  }

  /** The rest is not all zero: the checksum field is part of it. */
  lemma FieldRemains(h: seq<byte>, k: nat, at: nat)
    requires FieldAt(h, k) && FieldAt(h, at) && at != k && Native(h, k) != 0
    ensures BeSum(Zeroed(h, at)) > 0
  {
    hide *;
    ElsewhereSame(h, k, at);
    FieldSplits(Zeroed(h, at), k);
    SwapTwice(Native(h, k));
  }

  lemma ElsewhereSame(h: seq<byte>, k: nat, at: nat)
    requires FieldAt(h, k) && FieldAt(h, at) && at != k
    ensures FieldAt(Zeroed(h, at), k) && Native(Zeroed(h, at), k) == Native(h, k)
  {
  }

  lemma StoreElsewhere(h: seq<byte>, k: nat, at: nat, w: nat)
    requires FieldAt(h, k) && FieldAt(h, at) && at != k && w <= 0xffff
    ensures var g := Store(h, at, w);
            FieldAt(g, k) && Native(g, k) == Native(h, k) && BeSum(g) == BeSum(Zeroed(h, at)) + Swap16(w)
  {
    StoreZeroes(h, at, w);
    FieldSplits(Store(h, at, w), at);
    hide BeSum;
    hide Swap16;
  }

  // ----- tcp_sum.c: compare, skipping the field -------------------------------------------------------

  /** The test of `_mysock_verify_checksum` on pseudo-header `p` and segment `s`. */
  predicate TcpAccepts(p: seq<byte>, s: seq<byte>, k: nat)
    requires FieldAt(s, k)
  {
    Native(s, k) == TcpValue(p + Zeroed(s, k))
  }

  /** It passes exactly when the total of pseudo-header and segment is 0xffff and the field is not
      0xffff: the mirror image of the router's zero convention. The pseudo-header is never all zero. */
  lemma TcpAcceptsExactly(p: seq<byte>, s: seq<byte>, k: nat)
    requires FieldAt(s, k) && |p| % 2 == 0 && LeSum(p) > 0
    ensures TcpAccepts(p, s, k) <==> Ones(LeSum(p + s)) == 0xffff && Native(s, k) != 0xffff
  {
    hide LeSum;
    hide Ones;
    hide Zeroed;
    hide Native;
    hide Complements;
    var z := Zeroed(s, k);
    LeSumConcat(p, s);
    LeSumConcat(p, z);
    FieldSplits(s, k);
    var rest, v := LeSum(p + z), Native(s, k);
    TotalIsAllOnes(rest, v);
    TcpField(rest, v);
  }

  lemma TcpField(rest: nat, v: nat)
    requires rest > 0 && v <= 0xffff
    ensures v == 0xffff - Ones(rest) <==> v != 0xffff && Complements(Ones(rest), v)
  {
    hide Ones;
  }

  /** What the sender stores is accepted by the receiver. */
  lemma SetThenVerify(p: seq<byte>, s: seq<byte>, k: nat)
    requires FieldAt(s, k)
    ensures TcpAccepts(p, Store(s, k, TcpValue(p + Zeroed(s, k))), k)
  {
    StoreZeroes(s, k, TcpValue(p + Zeroed(s, k)));
  }

  // ----- the routines -----------------------------------------------------------------------------------

  /** `cksum` of sr_utils.c, for every length an int can give: the 32-bit accumulator wraps around. */
  method Cksum(data: seq<byte>) returns (r: nat)
    requires |data| <= 0x7fff_ffff
    ensures r == FieldFor(Wrap32(BeSum(data)))
    ensures r == CksumValue(data) <==> BeSum(data) < W32
  {
    CksumWraps(data);
    hide BeSum, LeSum, Ones, Wrap32;
    var sum := SumWords(data);
    sum := Folded(sum);
    sum := Swap16(0xffff - sum);
    r := if sum != 0 then sum else 0xffff;
  }

  /** The loop over the words, and the odd octet. */
  method SumWords(data: seq<byte>) returns (sum: nat)
    ensures sum == Wrap32(BeSum(data))
  {
    hide BeSum, Wrap32;
    sum := 0;
    var at := 0;
    assert data[0..] == data;
    while |data| - at >= 2
      invariant 0 <= at <= |data| && sum < W32
      invariant Wrap32(sum + BeSum(data[at..])) == Wrap32(BeSum(data))
    {
      WordAdded(data, at, sum);
      sum := Wrap32(sum + Word(data[at], data[at + 1]));
      at := at + 2;
    }
    BeSumStep(data[at..]);
    if |data| - at > 0 {
      sum := Wrap32(sum + Word(data[at], 0));
    }
  }

  lemma WordAdded(data: seq<byte>, at: nat, sum: nat)
    requires at + 2 <= |data|
    ensures Wrap32(Wrap32(sum + Word(data[at], data[at + 1])) + BeSum(data[at + 2..])) == Wrap32(sum + BeSum(data[at..]))
  {
    hide BeSum, Wrap32, Word;
    assert data[at..][2..] == data[at + 2..];
    BeSumStep(data[at..]);
    AddWraps(sum, Word(data[at], data[at + 1]), BeSum(data[at + 2..]));
  }

  /** Addition modulo 2^32 may be cut at any time. */
  lemma AddWraps(a: nat, b: nat, c: nat)
    ensures Wrap32(Wrap32(a + b) + c) == Wrap32(a + (b + c))
  {
  }

  lemma OnesResidue(n: nat)
    ensures Ones(n) % 0xffff == n % 0xffff
  {
    var q := OnesQuotient(n);
    assert n == 0xffff * q + Ones(n);
    hide Ones;
  }

  /** Two sums give the same field exactly when they agree modulo 65535. */
  lemma FieldSame(m: nat, n: nat)
    ensures FieldFor(m) == FieldFor(n) <==> m % 0xffff == n % 0xffff
  {
    hide *;
    OnesResidue(m);
    OnesResidue(n);
    FieldIs(m);
    FieldIs(n);
    ComplementsSame(Ones(m), Ones(n));
  }

  lemma FieldIs(n: nat)
    ensures var s := Swap16(0xffff - Ones(n)); FieldFor(n) == if s == 0 then 0xffff else s
  {
    hide Ones, Swap16;
  }

  lemma ComplementsSame(x: nat, y: nat)
    requires x <= 0xffff && y <= 0xffff
    ensures var s, t := Swap16(0xffff - x), Swap16(0xffff - y);
            (if s == 0 then 0xffff else s) == (if t == 0 then 0xffff else t) <==> x % 0xffff == y % 0xffff
  {
    hide *;
    SwapSame(0xffff - x, 0xffff - y);
    SwapSame(0xffff - y, 0xffff - x);
    SmallResidue(x);
    SmallResidue(y);
  }

  lemma SmallResidue(x: nat)
    requires x <= 0xffff
    ensures x % 0xffff == if x == 0xffff then 0 else x
  {
  }

  /** 2^32 is 1 modulo 65535: what has wrapped around is missing from the residue. */
  lemma WrapShifts(n: nat)
    ensures n % 0xffff == (Wrap32(n) + n / W32) % 0xffff
  {
    assert n == n % W32 + n / W32 + 0xffff * (0x10001 * (n / W32));
  }

  /** A sum of at most 2^30 words wraps around too seldom for its residue to come round again. */
  lemma CksumWraps(data: seq<byte>)
    requires |data| <= 0x7fff_ffff
    ensures FieldFor(Wrap32(BeSum(data))) == CksumValue(data) <==> BeSum(data) < W32
  {
    var n := BeSum(data);
    LeSumBound(data);
    hide BeSum, LeSum, FieldFor;
    FieldSame(Wrap32(n), n);
    WrapShifts(n);
    assert n / W32 < 0xffff;
    SameResidue(Wrap32(n), n / W32);
  }

  lemma SameResidue(m: nat, q: nat)
    requires q < 0xffff
    ensures (m + q) % 0xffff == m % 0xffff <==> q == 0
  {
    var r := m % 0xffff;
    assert (m + q) % 0xffff == if r + q < 0xffff then r + q else r + q - 0xffff;
  }

  /** The folding loop of `cksum`: the one's complement value of the sum. */
  method Folded(total: nat) returns (sum: nat)
    ensures sum == Ones(total)
  {
    sum := total;
    while sum > 0xffff
      invariant Ones(sum) == Ones(total)
    {
      FoldKeeps(sum);
      sum := sum / 0x10000 + sum % 0x10000;
    }
    SmallIsOnes(sum);
  }

  lemma SmallIsOnes(n: nat)
    requires n <= 0xffff
    ensures Ones(n) == n
  {
  }

  const IPPROTO_TCP: nat := 6
  const TCP_HEADER: nat := 20
  const TH_SUM: nat := 16           // offsetof(struct tcphdr, th_sum)
  const INT_MAX: nat := 0x7fff_ffff

  /** The 12 octets in front: addresses in network order, zero, protocol, length cut to 16 bits. */
  function PseudoHeader(src: seq<byte>, dst: seq<byte>, len: nat): (p: seq<byte>)
    requires |src| == 4 && |dst| == 4
    ensures |p| == 12
  {
    src + dst + [0, IPPROTO_TCP, len % 65536 / 256, len % 256]
  }

  /** In network order it adds the addresses, the protocol number 6 and the length to the sum. */
  lemma PseudoHeaderAdds(src: seq<byte>, dst: seq<byte>, len: nat)
    requires |src| == 4 && |dst| == 4
    ensures BeSum(PseudoHeader(src, dst, len)) == BeSum(src) + BeSum(dst) + 6 + len % 65536
  {
    var tail: seq<byte> := [0, IPPROTO_TCP, len % 65536 / 256, len % 256];
    assert PseudoHeader(src, dst, len) == src + dst + tail;
    BeSumOfTwo(0, IPPROTO_TCP, len % 65536 / 256, len % 256);
    TwoOctets(len);
    hide *;
    BeSumConcat(src, dst);
    BeSumConcat(src + dst, tail);
  }

  lemma BeSumOfTwo(a: byte, b: byte, c: byte, d: byte)
    ensures BeSum([a, b, c, d]) == a * 256 + b + (c * 256 + d)
  {
    var all, last := [a, b, c, d], [c, d];
    assert all[2..] == last && last[2..] == [];
    assert BeSum(all) == Word(a, b) + BeSum(last);
    assert BeSum(last) == Word(c, d) + BeSum([]);
  }

  lemma TwoOctets(n: nat)
    ensures n % 65536 / 256 * 256 + n % 256 == n % 65536
  {
    assert n % 65536 % 256 == n % 256;
  }

  /** All that is summed: the pseudo-header, then the segment without its checksum. */
  function Summed(src: seq<byte>, dst: seq<byte>, packet: seq<byte>): (b: seq<byte>)
    requires |src| == 4 && |dst| == 4 && |packet| >= TCP_HEADER
    ensures |b| == 12 + |packet|
  {
    PseudoHeader(src, dst, |packet|) + Zeroed(packet, TH_SUM)
  }

  /** In network order the sum is that of the addresses, the protocol number 6, the length, and the segment but
      for octets 16 and 17. */
  lemma SegmentSum(src: seq<byte>, dst: seq<byte>, packet: seq<byte>)
    requires |src| == 4 && |dst| == 4 && |packet| >= 20
    ensures var hi: nat, lo: nat := packet[16], packet[17];
            BeSum(Summed(src, dst, packet)) + (hi * 256 + lo) == BeSum(src) + BeSum(dst) + 6 + |packet| % 65536 + BeSum(packet)
  {
    PseudoHeaderAdds(src, dst, |packet|);
    FieldSplits(packet, 16);
    BeSumConcat(PseudoHeader(src, dst, |packet|), Zeroed(packet, 16));
    FieldSwapped(packet, 16);
    hide BeSum, Zeroed, PseudoHeader, Native, Swap16;
  }

  lemma FieldSwapped(h: seq<byte>, k: nat)
    requires FieldAt(h, k)
    ensures var hi: nat, lo: nat := h[k], h[k + 1]; Swap16(Native(h, k)) == hi * 256 + lo
  {
    assert Native(h, k) / 256 == h[k + 1] && Native(h, k) % 256 == h[k];
  }

  /** When the routine returns: both addresses are set, the 32-bit counter reaches the number of words,
      and the signed accumulator, which only grows, does not overflow. */
  predicate CanSum(src: seq<byte>, dst: seq<byte>, packet: seq<byte>)
    requires |src| == 4 && |dst| == 4 && |packet| >= TCP_HEADER
  {
    src != Zeros(4) && dst != Zeros(4) && |packet| / 2 < W32 && LeSum(Summed(src, dst, packet)) <= INT_MAX
  }

  /** The first loop: native words of the pseudo-header. */
  method SumPseudoHeader(p: seq<byte>) returns (sum: nat)
    requires |p| == 12
    ensures sum == LeSum(p)
  {
    sum := 0;
    assert p[0..] == p;
    for k := 0 to 6
      invariant sum + LeSum(p[2 * k..]) == LeSum(p)
    {
      assert p[2 * k..][2..] == p[2 * k + 2..];
      sum := sum + Word(p[2 * k + 1], p[2 * k]);
    }
  }

  /** The second loop and the odd octet: native words of the segment, passing over th_sum. */
  method SumSegment(packet: seq<byte>, start: nat) returns (sum: nat)
    requires |packet| >= TCP_HEADER
    ensures sum == start + LeSum(Zeroed(packet, TH_SUM))
  {
    ghost var z := Zeroed(packet, TH_SUM);
    sum := start;
    assert z[0..] == z;
    for k := 0 to |packet| / 2
      invariant sum + LeSum(z[2 * k..]) == start + LeSum(z)
    {
      assert z[2 * k..][2..] == z[2 * k + 2..];
      if k != TH_SUM / 2 {
        sum := sum + Word(packet[2 * k + 1], packet[2 * k]);
      }
    }
    if |packet| % 2 == 1 {
      assert z[2 * (|packet| / 2)..] == [packet[|packet| - 1]];
      sum := sum + packet[|packet| - 1];
    }
  }

  /**
   * `_mysock_tcp_checksum`: two folds, then the complement cut to 16 bits. None where an assertion on the
   * addresses fails, the loop does not end, or the signed accumulator overflows.
   */
  method TcpChecksum(src: seq<byte>, dst: seq<byte>, packet: seq<byte>) returns (r: Option<nat>)
    requires |src| == 4 && |dst| == 4 && |packet| >= TCP_HEADER
    ensures r == if CanSum(src, dst, packet) then Some(TcpValue(Summed(src, dst, packet))) else None
    ensures r.None? <==> || src == [0, 0, 0, 0] || dst == [0, 0, 0, 0] || |packet| >= 0x2_0000_0000
                         || LeSum(Summed(src, dst, packet)) > 0x7fff_ffff
  {
    if src == Zeros(4) || dst == Zeros(4) || |packet| / 2 >= W32 {
      return None;
    }
    var p := PseudoHeader(src, dst, |packet|);
    LeSumConcat(p, Zeroed(packet, TH_SUM));
    hide LeSum;
    var sum := SumPseudoHeader(p);
    sum := SumSegment(packet, sum);
    if sum > INT_MAX {
      return None;
    }
    FoldKeeps(sum);
    sum := sum / 0x10000 + sum % 0x10000;
    FoldKeeps(sum);
    TwoFoldsSuffice(sum);
    sum := sum + sum / 0x10000;
    r := Some(0xffff - sum % 0x10000);
  }

  /** No segment of up to 65520 bytes overflows the accumulator. */
  lemma ShortSegmentsFit(src: seq<byte>, dst: seq<byte>, packet: seq<byte>)
    requires |src| == 4 && |dst| == 4 && TCP_HEADER <= |packet| <= 65520
    ensures CanSum(src, dst, packet) <==> src != Zeros(4) && dst != Zeros(4)
  {
    LeSumBound(Summed(src, dst, packet));
    hide LeSum;
  }

  /** After one fold of a number below 2^31, adding the carry once more leaves the value in 16 bits. */
  lemma TwoFoldsSuffice(n: nat)
    requires n <= 0x7fff + 0xffff
    ensures (n + n / 0x10000) % 0x10000 == Ones(n)
  {
  }
}
