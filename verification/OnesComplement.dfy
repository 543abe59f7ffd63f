/** One's complement sums of 16-bit words (RFC 1071), as numbers. */
module OnesComplement {
  import opened Bytes

  /** A 16-bit word from its two octets. */
  function Word(high: nat, low: nat): nat {
    high * 256 + low
  }

  /** Words taken most significant octet first; an odd last octet is padded with a zero octet. */
  function BeSum(b: seq<byte>): nat {
    if b == [] then 0
    else if |b| == 1 then Word(b[0], 0)
    else Word(b[0], b[1]) + BeSum(b[2..])
  }

  /** The same octets read as words of a little-endian machine. */
  function LeSum(b: seq<byte>): nat {
    if b == [] then 0
    else if |b| == 1 then b[0]
    else Word(b[1], b[0]) + LeSum(b[2..])
  }

  /** The 16-bit one's complement value of a sum: its residue modulo 65535, with 0 only for 0. */
  function Ones(n: nat): (r: nat)
    ensures r <= 0xffff && (r == 0 <==> n == 0)
  {
    if n == 0 then 0 else (n - 1) % 0xffff + 1
  }

  /** The first word of a sum, and the odd octet at its end. */
  lemma BeSumStep(b: seq<byte>)
    ensures b == [] ==> BeSum(b) == 0
    ensures |b| == 1 ==> BeSum(b) == Word(b[0], 0)
    ensures |b| >= 2 ==> BeSum(b) == Word(b[0], b[1]) + BeSum(b[2..])
  {
  }

  /** htons on a little-endian machine. */
  function Swap16(x: nat): (y: nat)
    requires x <= 0xffff
    ensures y <= 0xffff
  {
    x % 256 * 256 + x / 256
  }

  lemma OnesQuotient(n: nat) returns (q: nat)
    ensures n == 0xffff * q + Ones(n)
  {
    q := if n == 0 then 0 else (n - 1) / 0xffff;
  }

  /** Ones(n) is the only value of its kind. */
  lemma OnesUnique(n: nat, r: nat, q: int)
    requires n == 0xffff * q + r && r <= 0xffff && (r == 0 <==> n == 0)
    ensures Ones(n) == r
  {
    if n > 0 {
      assert n - 1 == 0xffff * q + (r - 1);
    }
  }

  lemma OnesOfMultiple(n: nat, m: nat, q: int)
    requires n == m + 0xffff * q && (n == 0 <==> m == 0)
    ensures Ones(n) == Ones(m)
  {
    var k := OnesQuotient(m);
    OnesUnique(n, Ones(m), k + q);
  }

  /** One folding step keeps the value, and two are enough below 2^31. */
  lemma FoldKeeps(n: nat)
    ensures Ones(n / 0x10000 + n % 0x10000) == Ones(n)
  {
    OnesOfMultiple(n / 0x10000 + n % 0x10000, n, -(n / 0x10000));
  }

  lemma SwapIsTimes256(x: nat)
    requires x <= 0xffff
    ensures Swap16(x) == 256 * x - 0xffff * (x / 256)
  {
  }

  lemma SwapTwice(x: nat)
    requires x <= 0xffff
    ensures Swap16(Swap16(x)) == x
    ensures Swap16(0xffff - x) == 0xffff - Swap16(x)
    ensures Swap16(x) == 0 <==> x == 0
  {
    var h, l := x / 256, x % 256;
    assert x == 256 * h + l;
    assert Swap16(x) == 256 * l + h;
    assert (256 * l + h) / 256 == l && (256 * l + h) % 256 == h;
    assert 0xffff - x == 256 * (255 - h) + (255 - l);
    assert (256 * (255 - h) + (255 - l)) / 256 == 255 - h;
    assert (256 * (255 - h) + (255 - l)) % 256 == 255 - l;
  }

  /** The second octets of the words. */
  function OddSum(b: seq<byte>): nat {
    if |b| < 2 then 0 else b[1] + OddSum(b[2..])
  }

  lemma {:induction false} OrdersDiffer(b: seq<byte>)
    ensures BeSum(b) + 0xffff * OddSum(b) == 256 * LeSum(b)
    ensures BeSum(b) == 0 <==> LeSum(b) == 0
  {
    if |b| >= 2 {
      OrdersDiffer(b[2..]);
    }
  }

  /** Byte order independence, RFC 1071 section 2(B): summing octet-swapped words gives the swapped sum. */
  lemma ByteOrderIndependence(b: seq<byte>)
    ensures Ones(BeSum(b)) == Swap16(Ones(LeSum(b)))
  {
    var l := Ones(LeSum(b));
    var q := OnesQuotient(LeSum(b));
    OrdersDiffer(b);
    SwapIsTimes256(l);
    SwapTwice(l);
    OnesUnique(BeSum(b), Swap16(l), 256 * q + l / 256 - OddSum(b));
  }

  // ----- sums of parts --------------------------------------------------------------------------

  lemma {:induction false} LeSumConcat(a: seq<byte>, b: seq<byte>)
    requires |a| % 2 == 0
    ensures LeSum(a + b) == LeSum(a) + LeSum(b)
  {
    if a == [] {
      assert a + b == b;
    } else {
      assert (a + b)[2..] == a[2..] + b && (a + b)[0] == a[0] && (a + b)[1] == a[1];
      LeSumConcat(a[2..], b);
    }
  }

  lemma {:induction false} BeSumConcat(a: seq<byte>, b: seq<byte>)
    requires |a| % 2 == 0
    ensures BeSum(a + b) == BeSum(a) + BeSum(b)
  {
    if a == [] {
      assert a + b == b;
    } else {
      assert (a + b)[2..] == a[2..] + b && (a + b)[0] == a[0] && (a + b)[1] == a[1];
      BeSumConcat(a[2..], b);
    }
  }

  /** The octets after `acc`, most significant first, as one number of 16-bit digits. */
  function Digits(acc: nat, b: seq<byte>): nat
    decreases |b|
  {
    if b == [] then acc
    else
      var high: nat, low: nat := b[0], if |b| == 1 then 0 else b[1];
      Digits(acc * 65536 + high * 256 + low, b[Min(2, |b|)..])
  }

  /** The sum is that number modulo 65535, whose digits are worth 65536 and so 1. */
  lemma {:induction false} SumIsResidue(acc: nat, b: seq<byte>)
    ensures Digits(acc, b) % 65535 == (acc + BeSum(b)) % 65535
    decreases |b|
  {
    if |b| == 1 {
      OneDigit(acc, Word(b[0], 0), 0);
      assert Digits(acc, b) == Digits(acc * 65536 + Word(b[0], 0), []);
    } else if |b| > 1 {
      var digit := Word(b[0], b[1]);
      OneDigit(acc, digit, BeSum(b[2..]));
      SumIsResidue(acc * 65536 + digit, b[2..]);
    }
  }

  lemma OneDigit(acc: nat, digit: nat, rest: nat)
    ensures (acc * 65536 + digit + rest) % 65535 == (acc + digit + rest) % 65535
  {
    assert acc * 65536 + digit + rest == 65535 * acc + (acc + digit + rest);
  }

  lemma {:induction false} LeSumBound(b: seq<byte>)
    ensures LeSum(b) <= 0xffff * ((|b| + 1) / 2) && BeSum(b) <= 0xffff * ((|b| + 1) / 2)
  {
    if |b| >= 2 {
      LeSumBound(b[2..]);
      assert (|b| + 1) / 2 == (|b[2..]| + 1) / 2 + 1;
    }
  }
}
