/** What the 32-bit operations of FIPS PUB 180-1, sections 3 and 5, mean for bits and for numbers. */
module FipsWords {
  import opened Bytes
  import opened Fips180

  // ----- bit by bit -----------------------------------------------------------------------------------

  /** The bit of `x` that `m` marks is set. */
  predicate Has(x: Word, m: Word) {
    x & m != 0
  }

  predicate OneBit(m: Word) {
    m & (m - 1) == 0 && m != 0
  }

  function One(b: bool): nat {
    if b then 1 else 0
  }

  /** How many of the three have the bit. */
  function Count(b: Word, c: Word, d: Word, m: Word): nat {
    One(Has(b, m)) + One(Has(c, m)) + One(Has(d, m))
  }

  lemma ChChooses(b: Word, c: Word, d: Word, m: Word)
    requires OneBit(m)
    ensures Has(Ch(b, c, d), m) <==> if Has(b, m) then Has(c, m) else Has(d, m)
  {
    hide Has, OneBit;
    ChoiceBit(b, c, d, m, Ch(b, c, d));
  }

  lemma ChoiceBit(b: Word, c: Word, d: Word, m: Word, r: Word)
    requires OneBit(m) && r == (b & c) | (!b & d)
    ensures Has(r, m) <==> if Has(b, m) then Has(c, m) else Has(d, m)
  {
  }

  lemma ParIsParity(b: Word, c: Word, d: Word, m: Word)
    requires OneBit(m)
    ensures Has(Par(b, c, d), m) <==> Count(b, c, d, m) % 2 == 1
  {
    hide Has, OneBit;
    ParityBit(b, c, d, m, Par(b, c, d));
  }

  lemma ParityBit(b: Word, c: Word, d: Word, m: Word, r: Word)
    requires OneBit(m) && r == b ^ c ^ d
    ensures Has(r, m) <==> ((Has(b, m) <==> Has(c, m)) <==> Has(d, m))
  {
  }

  lemma MajIsMajority(b: Word, c: Word, d: Word, m: Word)
    requires OneBit(m)
    ensures Has(Maj(b, c, d), m) <==> Count(b, c, d, m) >= 2
  {
    hide Has, OneBit;
    MajorityBit(b, c, d, m, Maj(b, c, d));
  }

  lemma MajorityBit(b: Word, c: Word, d: Word, m: Word, r: Word)
    requires OneBit(m) && r == (b & c) | (b & d) | (c & d)
    ensures Has(r, m) <==> (Has(b, m) && Has(c, m)) || (Has(b, m) && Has(d, m)) || (Has(c, m) && Has(d, m))
  {
  }

  // ----- a word as a number ---------------------------------------------------------------------------

  function Value(x: Word): nat {
    x as nat
  }

  function Next(m: Word): Word {
    m << 1
  }

  /** What the bit of `x` that `m` marks is worth, `w` or nothing. */
  function On(x: Word, m: Word, w: nat): nat {
    if Has(x, m) then w else 0
  }

  /** The number that `k` bits make, the one marked by `m` worth `w`, the next ones twice as much each. */
  function Number(x: Word, m: Word, w: nat, k: nat): nat
    decreases k
  {
    if k == 0 then 0 else On(x, m, w) + Number(x, Next(m), 2 * w, k - 1)
  }

  lemma FourBits(x: Word, m: Word, m1: Word, m2: Word, m3: Word, m4: Word, w: nat, k: nat)
    requires k >= 4 && m1 == Next(m) && m2 == Next(m1) && m3 == Next(m2) && m4 == Next(m3)
    ensures Number(x, m, w, k)
         == On(x, m, w) + On(x, m1, 2 * w) + On(x, m2, 4 * w) + On(x, m3, 8 * w) + Number(x, m4, 16 * w, k - 4)
  {
    hide On, Next;
    assert Number(x, m1, 2 * w, k - 1) == On(x, m1, 2 * w) + Number(x, m2, 4 * w, k - 2);
    assert Number(x, m2, 4 * w, k - 2) == On(x, m2, 4 * w) + Number(x, m3, 8 * w, k - 3);
    assert Number(x, m3, 8 * w, k - 3) == On(x, m3, 8 * w) + Number(x, m4, 16 * w, k - 4);
  }

  lemma Bits0(x: Word)
    ensures (x & 0xF) as nat == (x & 0x0) as nat
             + (if x & 0x1 != 0 then 0x1 else 0) + (if x & 0x2 != 0 then 0x2 else 0)
             + (if x & 0x4 != 0 then 0x4 else 0) + (if x & 0x8 != 0 then 0x8 else 0)
  {
  }

  lemma Bits4(x: Word)
    ensures (x & 0xFF) as nat == (x & 0xF) as nat
             + (if x & 0x10 != 0 then 0x10 else 0) + (if x & 0x20 != 0 then 0x20 else 0)
             + (if x & 0x40 != 0 then 0x40 else 0) + (if x & 0x80 != 0 then 0x80 else 0)
  {
  }

  lemma Bits8(x: Word)
    ensures (x & 0xFFF) as nat == (x & 0xFF) as nat
             + (if x & 0x100 != 0 then 0x100 else 0) + (if x & 0x200 != 0 then 0x200 else 0)
             + (if x & 0x400 != 0 then 0x400 else 0) + (if x & 0x800 != 0 then 0x800 else 0)
  {
  }

  lemma Bits12(x: Word)
    ensures (x & 0xFFFF) as nat == (x & 0xFFF) as nat
             + (if x & 0x1000 != 0 then 0x1000 else 0) + (if x & 0x2000 != 0 then 0x2000 else 0)
             + (if x & 0x4000 != 0 then 0x4000 else 0) + (if x & 0x8000 != 0 then 0x8000 else 0)
  {
  }

  lemma Bits16(x: Word)
    ensures (x & 0xFFFFF) as nat == (x & 0xFFFF) as nat
             + (if x & 0x10000 != 0 then 0x10000 else 0) + (if x & 0x20000 != 0 then 0x20000 else 0)
             + (if x & 0x40000 != 0 then 0x40000 else 0) + (if x & 0x80000 != 0 then 0x80000 else 0)
  {
  }

  lemma Bits20(x: Word)
    ensures (x & 0xFFFFFF) as nat == (x & 0xFFFFF) as nat
             + (if x & 0x100000 != 0 then 0x100000 else 0) + (if x & 0x200000 != 0 then 0x200000 else 0)
             + (if x & 0x400000 != 0 then 0x400000 else 0) + (if x & 0x800000 != 0 then 0x800000 else 0)
  {
  }

  lemma Bits24(x: Word)
    ensures (x & 0xFFFFFFF) as nat == (x & 0xFFFFFF) as nat
             + (if x & 0x1000000 != 0 then 0x1000000 else 0) + (if x & 0x2000000 != 0 then 0x2000000 else 0)
             + (if x & 0x4000000 != 0 then 0x4000000 else 0) + (if x & 0x8000000 != 0 then 0x8000000 else 0)
  {
  }

  lemma Bits28(x: Word)
    ensures (x & 0xFFFFFFFF) as nat == (x & 0xFFFFFFF) as nat
             + (if x & 0x10000000 != 0 then 0x10000000 else 0) + (if x & 0x20000000 != 0 then 0x20000000 else 0)
             + (if x & 0x40000000 != 0 then 0x40000000 else 0) + (if x & 0x80000000 != 0 then 0x80000000 else 0)
  {
  }

  lemma From0(x: Word)
    ensures Value(x & 0xF) + Number(x, 0x10, 0x10, 28) == Value(x & 0x0) + Number(x, 0x1, 0x1, 32)
  {
    Bits0(x);
    hide Number;
    FourBits(x, 0x1, 0x2, 0x4, 0x8, 0x10, 0x1, 32);
  }

  lemma From4(x: Word)
    ensures Value(x & 0xFF) + Number(x, 0x100, 0x100, 24) == Value(x & 0xF) + Number(x, 0x10, 0x10, 28)
  {
    Bits4(x);
    hide Number;
    FourBits(x, 0x10, 0x20, 0x40, 0x80, 0x100, 0x10, 28);
  }

  lemma From8(x: Word)
    ensures Value(x & 0xFFF) + Number(x, 0x1000, 0x1000, 20) == Value(x & 0xFF) + Number(x, 0x100, 0x100, 24)
  {
    Bits8(x);
    hide Number;
    FourBits(x, 0x100, 0x200, 0x400, 0x800, 0x1000, 0x100, 24);
  }

  lemma From12(x: Word)
    ensures Value(x & 0xFFFF) + Number(x, 0x10000, 0x10000, 16) == Value(x & 0xFFF) + Number(x, 0x1000, 0x1000, 20)
  {
    Bits12(x);
    hide Number;
    FourBits(x, 0x1000, 0x2000, 0x4000, 0x8000, 0x10000, 0x1000, 20);
  }

  lemma From16(x: Word)
    ensures Value(x & 0xFFFFF) + Number(x, 0x100000, 0x100000, 12) == Value(x & 0xFFFF) + Number(x, 0x10000, 0x10000, 16)
  {
    Bits16(x);
    hide Number;
    FourBits(x, 0x10000, 0x20000, 0x40000, 0x80000, 0x100000, 0x10000, 16);
  }

  lemma From20(x: Word)
    ensures Value(x & 0xFFFFFF) + Number(x, 0x1000000, 0x1000000, 8) == Value(x & 0xFFFFF) + Number(x, 0x100000, 0x100000, 12)
  {
    Bits20(x);
    hide Number;
    FourBits(x, 0x100000, 0x200000, 0x400000, 0x800000, 0x1000000, 0x100000, 12);
  }

  lemma From24(x: Word)
    ensures Value(x & 0xFFFFFFF) + Number(x, 0x10000000, 0x10000000, 4) == Value(x & 0xFFFFFF) + Number(x, 0x1000000, 0x1000000, 8)
  {
    Bits24(x);
    hide Number;
    FourBits(x, 0x1000000, 0x2000000, 0x4000000, 0x8000000, 0x10000000, 0x1000000, 8);
  }

  lemma From28(x: Word)
    ensures Value(x & 0xFFFFFFFF) + Number(x, 0x0, 0x100000000, 0) == Value(x & 0xFFFFFFF) + Number(x, 0x10000000, 0x10000000, 4)
  {
    Bits28(x);
    hide Number;
    FourBits(x, 0x10000000, 0x20000000, 0x40000000, 0x80000000, 0x0, 0x10000000, 4);
  }

  /** A word is the number its bits make. */
  lemma ValueIsNumber(x: Word)
    ensures Value(x) == Number(x, 1, 1, 32)
  {
    Ends(x);
    hide *;
    From0(x);
    From4(x);
    From8(x);
    From12(x);
    From16(x);
    From20(x);
    From24(x);
    From28(x);
  }

  lemma Ends(x: Word)
    ensures Value(x & 0xFFFFFFFF) == Value(x) && Value(x & 0) == 0 && Number(x, 0, 0x1_0000_0000, 0) == 0
  {
  }

  lemma ValueFits(x: Word)
    ensures Value(x) < W32
  {
  }

  // ----- addition ---------------------------------------------------------------------------------------

  /** The carries out of each place, `i` being those into it. */
  function Carries(x: Word, y: Word, i: Word): Word {
    (x & y) | ((x | y) & i)
  }

  function Parity(x: Word, y: Word, i: Word): Word {
    x ^ y ^ i
  }

  /** `i` has the carries into the places: there the sum is not the parity of the two. */
  predicate CarriesIn(x: Word, y: Word, i: Word) {
    i == x ^ y ^ (x + y)
  }

  lemma CarriesOf(x: Word, y: Word) returns (i: Word)
    ensures CarriesIn(x, y, i)
  {
    i := x ^ y ^ (x + y);
  }

  lemma SumIsParity(x: Word, y: Word, i: Word)
    requires CarriesIn(x, y, i)
    ensures Plus(x, y) == Parity(x, y, i)
  {
  }

  lemma NoCarryIn(x: Word, y: Word, i: Word)
    requires CarriesIn(x, y, i)
    ensures !Has(i, 1)
  {
  }

  /** `n` marks the place above that of `m`. */
  predicate Above(m: Word, n: Word) {
    m & (m - 1) == 0 && m != 0 && n == m << 1 && n != 0
  }

  lemma NextIsAbove(m: Word)
    requires OneBit(m) && Next(m) != 0
    ensures Above(m, Next(m))
  {
  }

  /** A carry out of one place is the carry into the one above. */
  lemma CarryMoves(x: Word, y: Word, i: Word, c: Word, m: Word, n: Word)
    requires CarriesIn(x, y, i) && Above(m, n) && c == Carries(x, y, i)
    ensures Has(c, m) <==> Has(i, n)
  {
  }

  /** One place of the addition: with the carry in, the sum and the carry out. */
  lemma PlaceAdds(x: Word, y: Word, i: Word, m: Word)
    requires OneBit(m)
    ensures One(Has(x, m)) + One(Has(y, m)) + One(Has(i, m)) == One(Has(Parity(x, y, i), m)) + 2 * One(Has(Carries(x, y, i), m))
  {
    hide Has, OneBit;
    ParityBit(x, y, i, m, Parity(x, y, i));
    CarryBit(x, y, i, m, Carries(x, y, i));
  }

  lemma CarryBit(x: Word, y: Word, i: Word, m: Word, r: Word)
    requires OneBit(m) && r == (x & y) | ((x | y) & i)
    ensures Has(r, m) <==> (Has(x, m) && Has(y, m)) || (Has(i, m) && (Has(x, m) || Has(y, m)))
  {
  }

  /** There are `k` places from the one marked by `m` on. */
  predicate Places(m: Word, k: nat)
    decreases k
  {
    k == 0 || (OneBit(m) && (k == 1 || (Next(m) != 0 && Places(Next(m), k - 1))))
  }

  function Times2(w: nat, k: nat): nat
    decreases k
  {
    if k == 0 then w else Times2(2 * w, k - 1)
  }

  /** Adding `k` places with a carry into the first: the sum, and a carry out of the last. */
  lemma {:induction false} PlacesAdd(x: Word, y: Word, i: Word, m: Word, w: nat, k: nat) returns (out: nat)
    requires CarriesIn(x, y, i) && Places(m, k)
    ensures Number(x, m, w, k) + Number(y, m, w, k) + On(i, m, w) == Number(Parity(x, y, i), m, w, k) + out
    ensures out == 0 || out == Times2(w, k)
    decreases k
  {
    hide Has, Next, OneBit, Carries, CarriesIn, Parity, On;
    var p, c := Parity(x, y, i), Carries(x, y, i);
    if k == 0 {
      out := On(i, m, w);
      OnIs(i, m, w);
    } else {
      PlaceWorth(x, y, i, m, w);
      if k > 1 {
        NextWorth(x, y, i, m, w);
        out := PlacesAdd(x, y, i, Next(m), 2 * w, k - 1);
      } else {
        out := 2 * On(c, m, w);
        OnIs(c, m, w);
        assert Number(x, Next(m), 2 * w, 0) == 0 && Number(y, Next(m), 2 * w, 0) == 0 && Number(p, Next(m), 2 * w, 0) == 0;
      }
    }
  }

  lemma OnIs(x: Word, m: Word, w: nat)
    ensures On(x, m, w) == 0 || On(x, m, w) == w
  {
    hide Has;
  }

  lemma PlaceWorth(x: Word, y: Word, i: Word, m: Word, w: nat)
    requires OneBit(m)
    ensures On(x, m, w) + On(y, m, w) + On(i, m, w) == On(Parity(x, y, i), m, w) + 2 * On(Carries(x, y, i), m, w)
  {
    hide Has, OneBit, Parity, Carries;
    PlaceAdds(x, y, i, m);
  }

  lemma NextWorth(x: Word, y: Word, i: Word, m: Word, w: nat)
    requires CarriesIn(x, y, i) && OneBit(m) && Next(m) != 0
    ensures 2 * On(Carries(x, y, i), m, w) == On(i, Next(m), 2 * w)
  {
    hide Has, OneBit, Next, CarriesIn, Carries, Above;
    NextIsAbove(m);
    CarryMoves(x, y, i, Carries(x, y, i), m, Next(m));
  }

  lemma AllPlaces()
    ensures Places(1, 32) && Times2(1, 32) == W32
  {
    assert Places(0x1000000, 8) && Times2(0x1000000, 8) == W32;
    assert Places(0x10000, 16) && Times2(0x10000, 16) == W32;
    assert Places(0x100, 24) && Times2(0x100, 24) == W32;
  }

  lemma NothingOn(i: Word)
    requires !Has(i, 1)
    ensures On(i, 1, 1) == 0
  {
  }

  /** `Plus` is addition modulo 2^32. */
  lemma PlusIsAddition(x: Word, y: Word)
    ensures Value(Plus(x, y)) == (Value(x) + Value(y)) % W32
  {
    hide *;
    var i := CarriesOf(x, y);
    SumIsParity(x, y, i);
    NoCarryIn(x, y, i);
    NothingOn(i);
    AllPlaces();
    var out := PlacesAdd(x, y, i, 1, 1, 32);
    ValueIsNumber(x);
    ValueIsNumber(y);
    ValueIsNumber(Plus(x, y));
    ValueFits(Plus(x, y));
    Reduced(Value(x) + Value(y), Value(Plus(x, y)), out);
  }

  lemma Reduced(n: nat, s: nat, out: nat)
    requires n == s + out && s < W32 && (out == 0 || out == W32)
    ensures s == n % W32
  {
  }
}
