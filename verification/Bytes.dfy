/** The byte type and the small functions on sequences that several models share. */
module Bytes {
  type byte = x: int | 0 <= x < 256

  function Repeat<T>(x: T, n: nat): (s: seq<T>)
    ensures |s| == n && forall i | 0 <= i < n :: s[i] == x
  {
    seq(n, _ => x)
  }

  /** What `calloc` hands out: `n` zero bytes. */
  function Zeros(n: nat): (z: seq<byte>)
    ensures |z| == n
  {
    Repeat(0, n)
  }

  const W32: nat := 0x1_0000_0000

  /** What a uint32_t keeps of a number. */
  function Wrap32(n: int): (r: nat)
    ensures r < W32 && (0 <= n < W32 ==> r == n)
  {
    n % W32
  }

  /** Whatever the number, it loses a multiple of 4294967296, and what is left is below that. */
  lemma Wrap32Loses(n: int)
    ensures 0 <= Wrap32(n) < 4294967296 && exists k: int :: n == Wrap32(n) + 4294967296 * k
  {
    assert n == Wrap32(n) + 4294967296 * (n / 4294967296);
  }

  function Min(a: nat, b: nat): nat {
    if a < b then a else b
  }

  lemma DivOf(a: nat, b: nat, r: nat)
    requires b > 0 && r < b
    ensures (a * b + r) / b == a
  {
    var q := (a * b + r) / b;
    var s := (a * b + r) % b;
    assert q * b + s == a * b + r;
    assert (q - a) * b == r - s;
    SmallMultiple(q - a, b);
  }

  lemma SmallMultiple(x: int, b: int)
    requires 0 < b && -b < x * b < b
    ensures x == 0
  {
    assert -x * b == -(x * b);
    if x >= 1 {
      MulLe(b, 1, x);
    } else if x <= -1 {
      MulLe(b, 1, -x);
    }
  }

  lemma MulLe(b: nat, x: nat, y: nat)
    requires x <= y
    ensures x * b <= y * b
  {
  }
}
