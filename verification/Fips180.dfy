/** SHA-1 as FIPS PUB 180-1 defines it, on whole messages. */
module Fips180 {
  import opened Bytes

  type Octet = bv8
  type Word = bv32

  /** The five words of a digest, or of the working buffers A to E. */
  datatype Five = Five(a: Word, b: Word, c: Word, d: Word, e: Word) {
    function Words(): (s: seq<Word>)
      ensures |s| == 5
    {
      [a, b, c, d, e]
    }
  }

  // ----- section 3: words from octets, S^n ---------------------------------------------------------

  /** Word `i` of a block: four octets, most significant first. */
  function WordAt(block: seq<Octet>, i: nat): Word
    requires |block| == 64 && i < 16
  {
    (block[4 * i] as Word) * 0x1000000 + (block[4 * i + 1] as Word) * 0x10000
    + (block[4 * i + 2] as Word) * 0x100 + (block[4 * i + 3] as Word)
  }

  function S1(x: Word): Word { x.RotateLeft(1) }
  function S5(x: Word): Word { x.RotateLeft(5) }
  function S30(x: Word): Word { x.RotateLeft(30) }

  // ----- section 4: padding -------------------------------------------------------------------------

  /** The number of zero octets after the 0x80 that make room for the length. */
  function PadZeros(n: nat): nat {
    (119 - n % 64) % 64
  }

  /** What octet `i` of a 64-bit number counts, most significant first. */
  function Weight(i: nat): (w: nat)
    requires i < 8
    ensures w > 0
    decreases 8 - i
  {
    if i == 7 then 1 else 256 * Weight(i + 1)
  }

  /** Octet `i` of the 64-bit message length in bits, most significant first. */
  function LengthOctet(bits: nat, i: nat): Octet
    requires i < 8
  {
    (bits / Weight(i) % 256) as Octet
  }

  function LengthOctets(bits: nat): (s: seq<Octet>)
    ensures |s| == 8
  {
    seq(8, i requires 0 <= i < 8 => LengthOctet(bits, i))
  }

  function Pad(m: seq<Octet>): (p: seq<Octet>)
    ensures |p| % 64 == 0
  {
    m + [0x80] + Repeat(0, PadZeros(|m|)) + LengthOctets(8 * |m|)
  }

  // ----- section 5 and 6: functions and constants ---------------------------------------------------

  function Ch(b: Word, c: Word, d: Word): Word { (b & c) | (!b & d) }
  function Par(b: Word, c: Word, d: Word): Word { b ^ c ^ d }
  function Maj(b: Word, c: Word, d: Word): Word { (b & c) | (b & d) | (c & d) }

  function F(t: nat, b: Word, c: Word, d: Word): Word {
    if t < 20 then Ch(b, c, d)
    else if t < 40 then Par(b, c, d)
    else if t < 60 then Maj(b, c, d)
    else Par(b, c, d)
  }

  function K(t: nat): Word {
    if t < 20 then 0x5A827999
    else if t < 40 then 0x6ED9EBA1
    else if t < 60 then 0x8F1BBCDC
    else 0xCA62C1D6
  }

  // ----- section 7: the digest ----------------------------------------------------------------------

  const H0 := Five(0x67452301, 0xEFCDAB89, 0x98BADCFE, 0x10325476, 0xC3D2E1F0)

  /** The word sequence W(0), ..., W(79) of a block. */
  function W(block: seq<Octet>, t: nat): Word
    requires |block| == 64
  {
    if t < 16 then WordAt(block, t)
    else S1(W(block, t - 3) ^ W(block, t - 8) ^ W(block, t - 14) ^ W(block, t - 16))
  }

  /** Addition modulo 2^32. */
  function Plus(x: Word, y: Word): Word { x + y }
  function Sum(x: Word, y: Word, z: Word, u: Word, v: Word): Word {
    Plus(Plus(Plus(Plus(x, y), z), u), v)
  }

  function Turn(t: nat, v: Five, w: Word): Five {
    Five(Sum(S5(v.a), F(t, v.b, v.c, v.d), v.e, w, K(t)), v.a, S30(v.b), v.c, v.d)
  }

  /** The buffers after the first `t` turns on a block. */
  function Turns(block: seq<Octet>, v: Five, t: nat): Five
    requires |block| == 64
  {
    if t == 0 then v else Turn(t - 1, Turns(block, v, t - 1), W(block, t - 1))
  }

  function Compress(h: Five, block: seq<Octet>): Five
    requires |block| == 64
  {
    AddFive(h, Turns(block, h, 80))
  }

  function AddFive(h: Five, v: Five): Five {
    Five(Plus(h.a, v.a), Plus(h.b, v.b), Plus(h.c, v.c), Plus(h.d, v.d), Plus(h.e, v.e))
  }

  /** The digest words after all blocks of `p`. */
  function HashBlocks(p: seq<Octet>): Five
    requires |p| % 64 == 0
  {
    if p == [] then H0
    else Compress(HashBlocks(p[..|p| - 64]), p[|p| - 64..])
  }

  function Digest(m: seq<Octet>): Five {
    HashBlocks(Pad(m))
  }

  function OctetNumber(o: Octet): nat {
    o as nat
  }

  function OctetOf(n: nat): Octet
    requires n < 256
  {
    n as Octet
  }

  /** The number that octets stand for, most significant first. */
  function BigEndian(s: seq<Octet>): nat {
    if s == [] then 0 else 256 * BigEndian(s[..|s| - 1]) + OctetNumber(s[|s| - 1])
  }

  /** The length field holds the length as one number of 64 bits. */
  lemma LengthInBits(bits: nat)
    ensures BigEndian(LengthOctets(bits)) == bits % 0x1_0000_0000_0000_0000
  {
    LengthPrefix(bits, 8);
    assert LengthOctets(bits)[..8] == LengthOctets(bits);
    hide LengthOctets, BigEndian;
    assert Weight(7) == 1;
    assert Pow256(4) == 0x1_0000_0000 && Pow256(8) == 0x1_0000_0000_0000_0000;
  }

  function Pow256(k: nat): (p: nat)
    ensures p > 0
  {
    if k == 0 then 1 else 256 * Pow256(k - 1)
  }

  /** The first `k` octets are the top of the number. */
  lemma {:induction false} LengthPrefix(bits: nat, k: nat)
    requires 1 <= k <= 8
    ensures BigEndian(LengthOctets(bits)[..k]) == bits / Weight(k - 1) % Pow256(k)
  {
    hide *;
    LengthDigit(bits, k);
    Powers(k);
    if k > 1 {
      LengthPrefix(bits, k - 1);
      OneMoreDigit(bits, Weight(k - 1), Pow256(k - 1));
    }
  }

  lemma Powers(k: nat)
    requires 1 <= k <= 8
    ensures Pow256(0) == 1 && Pow256(k) == 256 * Pow256(k - 1) && (k > 1 ==> Weight(k - 2) == 256 * Weight(k - 1))
  {
  }

  lemma LengthDigit(bits: nat, k: nat)
    requires 1 <= k <= 8
    ensures BigEndian(LengthOctets(bits)[..k])
         == (if k == 1 then 0 else 256 * BigEndian(LengthOctets(bits)[..k - 1])) + bits / Weight(k - 1) % 256
  {
    var s := LengthOctets(bits);
    assert s[k - 1] == LengthOctet(bits, k - 1);
    hide *;
    OctetValue(bits, k - 1);
    NumberSnoc(s, k);
  }

  lemma OctetValue(bits: nat, i: nat)
    requires i < 8
    ensures OctetNumber(LengthOctet(bits, i)) == bits / Weight(i) % 256
  {
    IsOctetOf(bits, i);
    hide *;
    OctetHolds(bits / Weight(i) % 256);
  }

  lemma IsOctetOf(bits: nat, i: nat)
    requires i < 8
    ensures LengthOctet(bits, i) == OctetOf(bits / Weight(i) % 256)
  {
  }

  lemma NumberSnoc(s: seq<Octet>, k: nat)
    requires 1 <= k <= |s|
    ensures BigEndian(s[..k]) == (if k == 1 then 0 else 256 * BigEndian(s[..k - 1])) + OctetNumber(s[k - 1])
  {
    assert s[..k][..k - 1] == s[..k - 1] && s[..k][k - 1] == s[k - 1];
    assert BigEndian(s[..0]) == 0;
  }

  lemma OctetHolds(n: nat)
    requires n < 256
    ensures OctetNumber(OctetOf(n)) == n
  {
    hide *;
    NibblesHold(n / 16, n % 16);
  }

  lemma NibblesHold(high: nat, low: nat)
    requires high < 16 && low < 16
    ensures OctetNumber(OctetOf(16 * high + low)) == 16 * high + low
  {
    RoundTrip(16 * high + low);
    hide *;
    NibblesBack(high, low);
  }

  lemma RoundTrip(n: nat)
    requires n < 256
    ensures OctetNumber(OctetOf(n)) == (n as Octet) as nat
  {
  }

  lemma NibblesBack(high: nat, low: nat)
    requires high < 16 && low < 16
    ensures ((16 * high + low) as Octet) as nat == 16 * high + low
  {
  }

  lemma DivTwice(n: nat, w: nat)
    requires w > 0
    ensures n / w / 256 == n / (256 * w)
  {
    var a, r := n / w, n % w;
    DivOfTwo(n, w, a / 256, a % 256, r);
  }

  lemma DivOfTwo(n: nat, w: nat, b: nat, t: nat, r: nat)
    requires w > 0 && n == (256 * b + t) * w + r && r < w && t <= 255
    ensures n / (256 * w) == b
  {
    Spread(b, t, w);
    MulLe(w, t, 255);
    DivOf(b, 256 * w, t * w + r);
  }

  lemma Spread(b: nat, t: nat, w: nat)
    ensures (256 * b + t) * w == b * (256 * w) + t * w
  {
  }

  /** A digit more: `w` is what the new one counts. */
  lemma OneMoreDigit(n: nat, w: nat, p: nat)
    requires w > 0 && p > 0
    ensures 256 * (n / (256 * w) % p) + n / w % 256 == n / w % (256 * p)
  {
    DivTwice(n, w);
    ModSplits(n / w, p);
  }

  lemma ModSplits(q: nat, p: nat)
    requires p > 0
    ensures 256 * (q / 256 % p) + q % 256 == q % (256 * p)
  {
    var a, b := q / 256, q % 256;
    var c, d := a / p, a % p;
    assert a == c * p + d && q == c * (256 * p) + (256 * d + b);
    DivOf(c, 256 * p, 256 * d + b);
  }

  /** The padding is the shortest one: the zeros never fill a whole block. */
  lemma PadIsShortest(m: seq<Octet>)
    ensures var p := Pad(m);
            && m < p && p[|m|] == 0x80
            && |m| + 9 <= |p| < |m| + 9 + 64
            && p[|p| - 8..] == LengthOctets(8 * |m|) && BigEndian(p[|p| - 8..]) == 8 * |m| % 0x1_0000_0000_0000_0000
            && forall i | |m| < i < |p| - 8 :: p[i] == 0
  {
    LengthInBits(8 * |m|);
  }

  lemma HashOneMore(p: seq<Octet>, block: seq<Octet>)
    requires |p| % 64 == 0 && |block| == 64
    ensures HashBlocks(p + block) == Compress(HashBlocks(p), block)
  {
    var q := p + block;
    assert q[..|q| - 64] == p && q[|q| - 64..] == block;
  }
}
