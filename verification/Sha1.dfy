/** sha1.c: the context with its block buffer, updated octet by octet and in place. */
module Sha1 {
  import opened Bytes
  import opened Fips180

  // The macro SHA1CircularShift for the three amounts it is used with.
  function CircularShift1(w: Word): Word { (w << 1) | (w >> 31) }
  function CircularShift5(w: Word): Word { (w << 5) | (w >> 27) }
  function CircularShift30(w: Word): Word { (w << 30) | (w >> 2) }

  lemma ShiftsRotate(w: Word)
    ensures CircularShift1(w) == S1(w) && CircularShift5(w) == S5(w) && CircularShift30(w) == S30(w)
  {
  }

  function Gather(b0: Octet, b1: Octet, b2: Octet, b3: Octet): Word {
    ((b0 as Word) << 24) | ((b1 as Word) << 16) | ((b2 as Word) << 8) | (b3 as Word)
  }

  lemma GatherIsWord(b0: Octet, b1: Octet, b2: Octet, b3: Octet)
    ensures Gather(b0, b1, b2, b3)
         == (b0 as Word) * 0x1000000 + (b1 as Word) * 0x10000 + (b2 as Word) * 0x100 + (b3 as Word)
  {
  }

  // The right-hand sides of the loops.
  function Xor4(w: Word, x: Word, y: Word, z: Word): Word { w ^ x ^ y ^ z }
  function Temp(a: Word, f: Word, e: Word, w: Word, k: Word): Word { Sum(CircularShift5(a), f, e, w, k) }

  /** The buffers after `E = D; D = C; C = S30(B); B = A; A = temp`. */
  function Rotate(v: Five, temp: Word): Five {
    Five(temp, v.a, CircularShift30(v.b), v.c, v.d)
  }

  /** A turn of the standard is a turn of the loops. */
  lemma TurnIs(t: nat, v: Five, w: Word)
    ensures Turn(t, v, w) == Rotate(v, Temp(v.a, F(t, v.b, v.c, v.d), v.e, w, K(t)))
  {
    ShiftsRotate(v.a);
    ShiftsRotate(v.b);
    hide CircularShift5;
    hide CircularShift30;
    hide S5;
    hide S30;
    hide Sum;
    hide F;
    hide K;
  }

  lemma CompressIs(h: Five, block: seq<Octet>)
    requires |block| == 64
    ensures Compress(h, block) == AddFive(h, Turns(block, h, 80))
  {
    hide Turns;
    hide AddFive;
  }

  lemma TurnsStart(block: seq<Octet>, h: Five)
    requires |block| == 64
    ensures Turns(block, h, 0) == h
  {
  }

  /** One pass of a loop, with the function and the constant it uses at turn `t`. */
  lemma LoopTurn(block: seq<Octet>, h: Five, t: nat, v: Five, f: Word, k: Word)
    requires |block| == 64 && t < 80 && v == Turns(block, h, t)
    requires f == if t < 20 then Ch(v.b, v.c, v.d) else if 40 <= t < 60 then Maj(v.b, v.c, v.d) else Par(v.b, v.c, v.d)
    requires k == if t < 20 then 0x5A827999 else if t < 40 then 0x6ED9EBA1 else if t < 60 then 0x8F1BBCDC else 0xCA62C1D6
    ensures Turns(block, h, t + 1)
         == Five(Temp(v.a, f, v.e, W(block, t), k), v.a, CircularShift30(v.b), v.c, v.d)
  {
    hide Ch, Maj, Par, W, Temp, CircularShift30, Turn;
    assert F(t, v.b, v.c, v.d) == f && K(t) == k;
    hide F, K;
    TurnIs(t, v, W(block, t));
  }

  lemma ScheduleStep(block: seq<Octet>, t: nat)
    requires |block| == 64 && t >= 16
    ensures W(block, t) == CircularShift1(Xor4(W(block, t - 3), W(block, t - 8), W(block, t - 14), W(block, t - 16)))
  {
    ShiftsRotate(W(block, t - 3) ^ W(block, t - 8) ^ W(block, t - 14) ^ W(block, t - 16));
  }

  lemma ScheduleStart(block: seq<Octet>, t: nat)
    requires |block| == 64 && t < 16
    ensures W(block, t) == Gather(block[t * 4], block[t * 4 + 1], block[t * 4 + 2], block[t * 4 + 3])
  {
    GatherIsWord(block[t * 4], block[t * 4 + 1], block[t * 4 + 2], block[t * 4 + 3]);
  }

  /** The message octets already hashed: all full blocks. */
  function Full(m: seq<Octet>): (p: seq<Octet>)
    ensures |p| % 64 == 0 && |p| == |m| - |m| % 64
  {
    m[..|m| - |m| % 64]
  }

  lemma NextMod(n: nat)
    ensures if n % 64 == 63 then (n + 1) % 64 == 0 else (n + 1) % 64 == n % 64 + 1
  {
  }

  /** One more octet either stays in the buffer or completes the next block. */
  lemma FullGrows(m: seq<Octet>, octet: Octet)
    ensures var n := m + [octet];
            if |m| % 64 == 63 then |n| % 64 == 0 && HashBlocks(Full(n)) == Compress(HashBlocks(Full(m)), n[|n| - 64..])
            else |n| % 64 == |m| % 64 + 1 && Full(n) == Full(m)
  {
    hide HashBlocks;
    hide Compress;
    var n := m + [octet];
    NextMod(|m|);
    if |m| % 64 == 63 {
      HashOneMore(Full(m), n[|n| - 64..]);
      assert Full(n) == n && n == n[..|n| - 64] + n[|n| - 64..];
      assert Full(m) == n[..|n| - 64];
    }
  }

  /** The octets of the last, incomplete block. */
  function Tail(m: seq<Octet>): (t: seq<Octet>)
    ensures |t| == |m| % 64
  {
    m[|m| - |m| % 64..]
  }

  /** The padded message is the hashed blocks and one or two more, as SHA1PadMessage fills them. */
  lemma PadSplits(m: seq<Octet>)
    ensures var r := |m| % 64; var len := LengthOctets(8 * |m|);
            if r <= 55 then Pad(m) == Full(m) + (Tail(m) + [0x80] + Repeat(0, 55 - r) + len)
            else Pad(m) == Full(m) + (Tail(m) + [0x80] + Repeat(0, 63 - r)) + (Repeat(0, 56) + len)
  {
    var r := |m| % 64;
    assert m == Full(m) + Tail(m);
    if r > 55 {
      assert PadZeros(|m|) == (63 - r) + 56;
      assert Repeat(0, PadZeros(|m|)) == Repeat(0, 63 - r) + Repeat(0, 56);
    } else {
      assert PadZeros(|m|) == 55 - r;
    }
    hide LengthOctets;
    hide Full;
    hide Tail;
    hide Repeat;
  }

  lemma DigestSplits(m: seq<Octet>)
    ensures var r := |m| % 64; var len := LengthOctets(8 * |m|); var h := HashBlocks(Full(m));
            if r <= 55 then Digest(m) == Compress(h, Tail(m) + [0x80] + Repeat(0, 55 - r) + len)
            else Digest(m) == Compress(Compress(h, Tail(m) + [0x80] + Repeat(0, 63 - r)), Repeat(0, 56) + len)
  {
    PadSplits(m);
    var r := |m| % 64;
    var len := LengthOctets(8 * |m|);
    hide HashBlocks;
    hide Pad;
    hide Full;
    hide Tail;
    hide Repeat;
    hide LengthOctets;
    hide Compress;
    if r <= 55 {
      HashOneMore(Full(m), Tail(m) + [0x80] + Repeat(0, 55 - r) + len);
    } else {
      var b := Tail(m) + [0x80] + Repeat(0, 63 - r);
      HashOneMore(Full(m), b);
      HashOneMore(Full(m) + b, Repeat(0, 56) + len);
    }
  }

  /** An octet of the upper counter. */
  lemma HighOctet(high: nat, low: nat, k: nat)
    requires low < W32 && k > 0
    ensures k * W32 > 0 && (high * W32 + low) / (k * W32) == high / k
  {
    var q, r := high / k, high % k;
    assert high == q * k + r;
    assert high * W32 + low == q * (k * W32) + (r * W32 + low);
    assert r * W32 + low < k * W32;
    DivOf(q, k * W32, r * W32 + low);
  }

  /** An octet of the lower counter; `up` times `k` is 2^32. */
  lemma LowOctet(high: nat, low: nat, k: nat, up: nat)
    requires k > 0 && up * k == W32
    ensures (high * W32 + low) / k == high * up + low / k
  {
    var q, r := low / k, low % k;
    assert high * W32 == (high * up) * k;
    assert high * W32 + low == (high * up + q) * k + r;
    DivOf(high * up + q, k, r);
  }

  lemma ModOfSum(a: nat, q: nat)
    ensures (a * 256 + q) % 256 == q % 256
  {
  }

  /** (n >> s) & 0xFF, with `k` for 2^s. */
  function Shifted(n: nat, k: nat): Octet
    requires k > 0
  {
    (n / k % 256) as Octet
  }

  lemma Weights()
    ensures Weight(0) == 0x1000000 * W32 && Weight(1) == 0x10000 * W32 && Weight(2) == 0x100 * W32 && Weight(3) == W32
    ensures Weight(4) == 0x1000000 && Weight(5) == 0x10000 && Weight(6) == 0x100 && Weight(7) == 1
  {
  }

  /** The two 32-bit counters hold the eight octets of the 64-bit length. */
  lemma UpperOctets(high: nat, low: nat, bits: nat)
    requires low < W32 && high < W32 && bits == high * W32 + low
    ensures LengthOctet(bits, 0) == Shifted(high, 0x1000000) && LengthOctet(bits, 1) == Shifted(high, 0x10000)
    ensures LengthOctet(bits, 2) == Shifted(high, 0x100) && LengthOctet(bits, 3) == Shifted(high, 1)
  {
    Weights();
    hide Weight;
    HighOctet(high, low, 0x1000000);
    HighOctet(high, low, 0x10000);
    HighOctet(high, low, 0x100);
    HighOctet(high, low, 1);
  }

  lemma LowerOctets(high: nat, low: nat, bits: nat)
    requires low < W32 && high < W32 && bits == high * W32 + low
    ensures LengthOctet(bits, 4) == Shifted(low, 0x1000000) && LengthOctet(bits, 5) == Shifted(low, 0x10000)
    ensures LengthOctet(bits, 6) == Shifted(low, 0x100) && LengthOctet(bits, 7) == Shifted(low, 1)
  {
    Weights();
    hide Weight;
    LowOctet(high, low, 0x1000000, 0x100);
    ModOfSum(high, low / 0x1000000);
    LowOctet(high, low, 0x10000, 0x10000);
    ModOfSum(high * 0x100, low / 0x10000);
    LowOctet(high, low, 0x100, 0x1000000);
    ModOfSum(high * 0x10000, low / 0x100);
    ModOfSum(high * 0x1000000, low);
  }

  /** Four octets of a counter, most significant first. */
  function Counter(n: nat): (s: seq<Octet>)
    ensures |s| == 4
  {
    [Shifted(n, 0x1000000), Shifted(n, 0x10000), Shifted(n, 0x100), Shifted(n, 1)]
  }

  /** The two 32-bit counters hold the eight octets of the 64-bit length. */
  lemma LengthIs(high: nat, low: nat, bits: nat)
    requires low < W32 && high < W32 && bits == high * W32 + low
    ensures LengthOctets(bits) == Counter(high) + Counter(low)
  {
    UpperOctets(high, low, bits);
    LowerOctets(high, low, bits);
    hide LengthOctet;
    hide Shifted;
  }

  lemma FullEmpty()
    ensures Full([]) == [] && HashBlocks([]) == H0
  {
  }

  class Context {
    const digest: array<Word>        // Message_Digest
    const block: array<Octet>        // Message_Block
    var lengthLow: nat               // unsigned, 32 bits
    var lengthHigh: nat
    var index: nat                   // Message_Block_Index
    var computed: bool
    var corrupted: bool

    ghost predicate Shaped() {
      digest.Length == 5 && block.Length == 64
    }

    /** Message_Digest as a value. */
    ghost function Current(): Five
      requires Shaped()
      reads digest
    {
      Five(digest[0], digest[1], digest[2], digest[3], digest[4])
    }

    /** The context has taken exactly the octets of `m` and is open for more. */
    ghost predicate Holds(m: seq<Octet>)
      reads this, digest, block
    {
      && Shaped() && !computed && !corrupted
      && index == |m| % 64
      && block[..index] == m[|m| - index..]
      && Current() == HashBlocks(Full(m))
      && Counted(m)
    }

    /** Length_High:Length_Low is the number of message bits. */
    ghost predicate Counted(m: seq<Octet>)
      reads this
    {
      lengthLow < W32 && lengthHigh < W32 && lengthHigh * W32 + lengthLow == 8 * |m|
    }

    constructor ()
      ensures Holds([])
      ensures fresh(digest) && fresh(block)
    {
      digest := new Word[5];
      block := new Octet[64];
      lengthLow, lengthHigh, index, computed, corrupted := 0, 0, 0, false, false;
      new;
      Reset();
    }

    /** SHA1Reset */
    method Reset()
      requires Shaped()
      modifies this, digest
      ensures Holds([])
    {
      FullEmpty();
      hide HashBlocks;
      hide Full;
      lengthLow := 0;
      lengthHigh := 0;
      index := 0;
      digest[0] := 0x67452301;
      digest[1] := 0xEFCDAB89;
      digest[2] := 0x98BADCFE;
      digest[3] := 0x10325476;
      digest[4] := 0xC3D2E1F0;
      computed := false;
      corrupted := false;
    }

    /** W[0..16]: the words of the block. */
    method LoadWords(w: array<Word>)
      requires Shaped() && w.Length == 80 && w != digest
      modifies w
      ensures forall i | 0 <= i < 16 :: w[i] == W(block[..], i)
    {
      ghost var bl := block[..];
      hide W;
      var t := 0;
      while t < 16
        invariant 0 <= t <= 16
        invariant forall i | 0 <= i < t :: w[i] == W(bl, i)
      {
        var word := (block[t * 4] as Word) << 24;
        word := word | ((block[t * 4 + 1] as Word) << 16);
        word := word | ((block[t * 4 + 2] as Word) << 8);
        word := word | (block[t * 4 + 3] as Word);
        ScheduleStart(bl, t);
        w[t] := word;
        t := t + 1;
      }
    }

    /** W[0..80] of SHA1ProcessMessageBlock. */
    method Schedule() returns (w: array<Word>)
      requires Shaped()
      ensures fresh(w) && w.Length == 80
      ensures forall i | 0 <= i < 80 :: w[i] == W(block[..], i)
    {
      ghost var bl := block[..];
      w := new Word[80];
      LoadWords(w);
      hide W;
      hide Xor4;
      hide CircularShift1;
      var t := 16;
      while t < 80
        invariant 16 <= t <= 80
        invariant forall i | 0 <= i < t :: w[i] == W(bl, i)
      {
        ScheduleStep(bl, t);
        w[t] := CircularShift1(Xor4(w[t - 3], w[t - 8], w[t - 14], w[t - 16]));
        t := t + 1;
      }
    }

    /** SHA1ProcessMessageBlock: one compression step, after which the block buffer is empty. */
    method ProcessMessageBlock()
      requires Shaped()
      modifies this`index, digest
      ensures index == 0
      ensures Current() == Compress(old(Current()), block[..])
    {
      ghost var h, bl := Current(), block[..];
      CompressIs(h, bl);
      hide *;
      var w := Schedule();
      var a, b, c, d, e := Rounds(w, bl);
      AddIn(a, b, c, d, e);
      index := 0;
    }

    /** Message_Digest[i] += A..E */
    method AddIn(a: Word, b: Word, c: Word, d: Word, e: Word)
      requires Shaped()
      modifies digest
      ensures Current() == AddFive(old(Current()), Five(a, b, c, d, e))
    {
      hide Plus;
      digest[0] := Plus(digest[0], a);
      digest[1] := Plus(digest[1], b);
      digest[2] := Plus(digest[2], c);
      digest[3] := Plus(digest[3], d);
      digest[4] := Plus(digest[4], e);
    }

    /** The four loops of twenty turns over the buffers A to E. */
    method Rounds(w: array<Word>, ghost bl: seq<Octet>) returns (a: Word, b: Word, c: Word, d: Word, e: Word)
      requires Shaped() && |bl| == 64 && w.Length == 80
      requires forall i | 0 <= i < 80 :: w[i] == W(bl, i)
      ensures Five(a, b, c, d, e) == Turns(bl, Current(), 80)
    {
      a, b, c, d, e := digest[0], digest[1], digest[2], digest[3], digest[4];
      ghost var h := Current();
      TurnsStart(bl, h);
      hide *;
      var t := 0;
      while t < 20
        invariant 0 <= t <= 20
        invariant Five(a, b, c, d, e) == Turns(bl, h, t)
      {
        LoopTurn(bl, h, t, Five(a, b, c, d, e), Ch(b, c, d), 0x5A827999);
        var temp := Temp(a, Ch(b, c, d), e, w[t], 0x5A827999);
        e, d, c, b, a := d, c, CircularShift30(b), a, temp;
        t := t + 1;
      }
      while t < 40
        invariant 20 <= t <= 40
        invariant Five(a, b, c, d, e) == Turns(bl, h, t)
      {
        LoopTurn(bl, h, t, Five(a, b, c, d, e), Par(b, c, d), 0x6ED9EBA1);
        var temp := Temp(a, Par(b, c, d), e, w[t], 0x6ED9EBA1);
        e, d, c, b, a := d, c, CircularShift30(b), a, temp;
        t := t + 1;
      }
      while t < 60
        invariant 40 <= t <= 60
        invariant Five(a, b, c, d, e) == Turns(bl, h, t)
      {
        LoopTurn(bl, h, t, Five(a, b, c, d, e), Maj(b, c, d), 0x8F1BBCDC);
        var temp := Temp(a, Maj(b, c, d), e, w[t], 0x8F1BBCDC);
        e, d, c, b, a := d, c, CircularShift30(b), a, temp;
        t := t + 1;
      }
      while t < 80
        invariant 60 <= t <= 80
        invariant Five(a, b, c, d, e) == Turns(bl, h, t)
      {
        LoopTurn(bl, h, t, Five(a, b, c, d, e), Par(b, c, d), 0xCA62C1D6);
        var temp := Temp(a, Par(b, c, d), e, w[t], 0xCA62C1D6);
        e, d, c, b, a := d, c, CircularShift30(b), a, temp;
        t := t + 1;
      }
    }
  
    /** SHA1Input: the octets are appended to the message, block by block; a message of 2^64 bits or
        more, or input after the digest was computed, marks the context corrupted. */
    method Input(message: seq<Octet>, ghost m: seq<Octet>)
      requires Shaped() && (computed || corrupted || Holds(m))
      modifies this, digest, block
      ensures Shaped() && computed == old(computed)
      ensures message == [] ==>
                corrupted == old(corrupted) && digest[..] == old(digest[..]) && (old(Holds(m)) ==> Holds(m))
      ensures message != [] && old(computed || corrupted) ==> corrupted && digest[..] == old(digest[..])
      ensures message != [] && !old(computed || corrupted) ==>
                if 8 * |m + message| < W32 * W32 then Holds(m + message) else corrupted
    {
      if message == [] {
        return;
      }
      if computed || corrupted {
        corrupted := true;
        return;
      }
      InputLoop(message, m);
    }

    /** while (length-- && !context->Corrupted) */
    method InputLoop(message: seq<Octet>, ghost m: seq<Octet>)
      requires Holds(m)
      modifies this`lengthLow, this`lengthHigh, this`index, this`corrupted, digest, block
      ensures Shaped()
      ensures if 8 * |m + message| < W32 * W32 then Holds(m + message) else corrupted
    {
      HoldsCounted(m);
      hide Holds;
      var i := 0;
      ghost var done := m;
      InputSoFar(m, message, 0);
      while i < |message| && !corrupted
        invariant 0 <= i <= |message| && Shaped() && done == m + message[..i]
        invariant if 8 * |done| < W32 * W32 then Holds(done) else corrupted
      {
        InputSoFar(m, message, i);
        InputOctet(message[i], done);
        done := done + [message[i]];
        i := i + 1;
      }
      InputSoFar(m, message, i);
      if i < |message| {
        HoldsIsOpen(done);
      }
    }

    lemma InputSoFar(m: seq<Octet>, message: seq<Octet>, i: nat)
      requires i <= |message|
      ensures i == 0 ==> m + message[..i] == m
      ensures i < |message| ==> m + message[..i + 1] == (m + message[..i]) + [message[i]]
      ensures i == |message| ==> message[..i] == message
      ensures |m + message[..i]| == |m| + i && |m + message| == |m| + |message|
    {
    }

    lemma OpenFacts(m: seq<Octet>)
      requires Holds(m)
      ensures Shaped() && block.Length == 64 && index < 64
      ensures index == |m| % 64 && block[..index] == Tail(m)
      ensures Current() == HashBlocks(Full(m))
      ensures lengthLow < W32 && lengthHigh < W32 && 8 * |m| == lengthHigh * W32 + lengthLow
    {
      hide HashBlocks;
    }

    lemma HoldsCounted(m: seq<Octet>)
      requires Holds(m)
      ensures Shaped() && 8 * |m| < W32 * W32
    {
    }

    lemma HoldsIsOpen(m: seq<Octet>)
      ensures Holds(m) ==> !corrupted
    {
    }

    /** The body of the loop in SHA1Input. */
    method InputOctet(octet: Octet, ghost m: seq<Octet>)
      requires Holds(m)
      modifies this`lengthLow, this`lengthHigh, this`index, this`corrupted, digest, block
      ensures Shaped()
      ensures if 8 * (|m| + 1) < W32 * W32 then Holds(m + [octet]) else corrupted
    {
      ghost var n := m + [octet];
      FullGrows(m, octet);
      hide HashBlocks;
      hide Full;
      hide Compress;
      block[index] := octet;
      index := index + 1;
      CountOctet(m, octet);
      assert block[..index] == n[|n| - index..];
      if index == 64 {
        assert block[..] == block[..64];
        CompleteBlock(Full(m), Full(n));
      }
    }

    /** The block buffer is full: hash it. */
    method CompleteBlock(ghost before: seq<Octet>, ghost after: seq<Octet>)
      requires Shaped() && index == 64 && |before| % 64 == 0 && |after| % 64 == 0
      requires Current() == HashBlocks(before) && HashBlocks(after) == Compress(HashBlocks(before), block[..])
      modifies this`index, digest
      ensures index == 0 && Current() == HashBlocks(after)
    {
      hide HashBlocks;
      hide Compress;
      ProcessMessageBlock();
    }

    method CountOctet(ghost m: seq<Octet>, ghost octet: Octet)
      requires Counted(m) && !corrupted
      modifies this`lengthLow, this`lengthHigh, this`corrupted
      ensures corrupted <==> 8 * (|m| + 1) >= W32 * W32
      ensures !corrupted ==> Counted(m + [octet])
    {
      lengthLow := (lengthLow + 8) % W32;
      if lengthLow == 0 {
        lengthHigh := (lengthHigh + 1) % W32;
        if lengthHigh == 0 {
          corrupted := true;
        }
      }
    }
  
    /** The while loops of SHA1PadMessage: zeros up to `upto`. */
    method ZeroFill(upto: nat)
      requires Shaped() && index <= upto <= 64
      modifies this`index, block
      ensures index == upto && block[..upto] == old(block[..index]) + Repeat(0, upto - old(index))
    {
      ghost var start := index;
      while index < upto
        invariant start <= index <= upto
        invariant block[..start] == old(block[..index])
        invariant forall i | start <= i < index :: block[i] == 0
      {
        block[index] := 0;
        index := index + 1;
      }
      assert block[..upto] == block[..start] + block[start..upto];
    }

    /** Four octets of the block, most significant first. */
    method StoreCounter(at: nat, counter: nat)
      requires Shaped() && at + 4 <= 64
      modifies block
      ensures block[..] == old(block[..at])
                + Counter(counter) + old(block[at + 4..])
    {
      block[at] := Shifted(counter, 0x1000000);
      block[at + 1] := Shifted(counter, 0x10000);
      block[at + 2] := Shifted(counter, 0x100);
      block[at + 3] := Shifted(counter, 1);
    }

    /** The last eight octets of the last block. */
    method StoreLength(ghost bits: nat)
      requires Shaped() && lengthLow < W32 && lengthHigh < W32 && bits == lengthHigh * W32 + lengthLow
      modifies block
      ensures block[..] == old(block[..56]) + LengthOctets(bits)
    {
      LengthIs(lengthHigh, lengthLow, bits);
      hide *;
      ghost var front := block[..56];
      StoreCounter(56, lengthHigh);
      ghost var upper := block[..60];
      assert upper == front + Counter(lengthHigh);
      StoreCounter(60, lengthLow);
      assert block[..] == upper + Counter(lengthLow);
    }

    /** No room for the length: fill this block, hash it, and start one with zeros only. */
    method PadIntoNextBlock()
      requires Shaped() && 55 < index < 64
      modifies this`index, block, digest
      ensures index == 56 && block[..56] == Repeat(0, 56)
      ensures Current() == Compress(old(Current()), old(block[..index]) + [0x80] + Repeat(0, 63 - old(index)))
    {
      hide Compress;
      hide Repeat;
      ghost var r := index;
      block[index] := 0x80;
      index := index + 1;
      assert block[..index] == old(block[..r]) + [0x80];
      ZeroFill(64);
      assert block[..] == block[..64];
      ProcessMessageBlock();
      ZeroFill(56);
      assert block[..0] == [];
    }

    method PadThisBlock()
      requires Shaped() && index <= 55
      modifies this`index, block
      ensures index == 56 && block[..56] == old(block[..index]) + [0x80] + Repeat(0, 55 - old(index))
    {
      hide Repeat;
      ghost var r := index;
      block[index] := 0x80;
      index := index + 1;
      assert block[..index] == old(block[..r]) + [0x80];
      ZeroFill(56);
    }

    /** What follows both branches: the length, and the last block. */
    method Finish(ghost bits: nat)
      requires Shaped() && lengthLow < W32 && lengthHigh < W32 && bits == lengthHigh * W32 + lengthLow
      modifies this`index, block, digest
      ensures index == 0 && Current() == Compress(old(Current()), old(block[..56]) + LengthOctets(bits))
    {
      hide *;
      StoreLength(bits);
      ProcessMessageBlock();
    }

    /** SHA1PadMessage */
    method PadMessage(ghost m: seq<Octet>)
      requires Holds(m)
      modifies this`index, digest, block
      ensures Current() == Digest(m) && index == 0
    {
      hide *;
      OpenFacts(m);
      DigestSplits(m);
      ghost var h, tail, r := Current(), block[..index], index;
      if index > 55 {
        PadIntoNextBlock();
        assert Current() == Compress(h, tail + [0x80] + Repeat(0, 63 - r));
        Finish(8 * |m|);
      } else {
        PadThisBlock();
        assert block[..56] == tail + [0x80] + Repeat(0, 55 - r);
        Finish(8 * |m|);
      }
    }

    /** SHA1Result: pads once; the digest of the message is in Message_Digest. */
    method Result(ghost m: seq<Octet>) returns (ok: bool)
      requires Shaped() && (computed || corrupted || Holds(m))
      modifies this, digest, block
      ensures Shaped() && ok == !old(corrupted) && corrupted == old(corrupted)
      ensures old(Holds(m)) ==> computed && Current() == Digest(m)
      ensures old(computed || corrupted) ==> computed == old(computed) && digest[..] == old(digest[..])
    {
      if corrupted {
        return false;
      }
      if !computed {
        PadMessage(m);
        computed := true;
      }
      return true;
    }
  }
}
