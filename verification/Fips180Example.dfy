/** The example of FIPS PUB 180-1, appendix A: what the definitions give for the message "abc". */
module Fips180Example {
  import opened Bytes
  import opened Fips180
  import opened FipsWords

  // ----- one turn ----------------------------------------------------------------------------------------

  /** The function of turn `t` gives `f`. */
  predicate Gives(t: nat, b: Word, c: Word, d: Word, f: Word) {
    if t < 20 then f == (b & c) | (!b & d)
    else if 40 <= t < 60 then f == (b & c) | (b & d) | (c & d)
    else f == b ^ c ^ d
  }

  lemma FunctionIs(t: nat, b: Word, c: Word, d: Word, f: Word)
    requires Gives(t, b, c, d, f)
    ensures F(t, b, c, d) == f
  {
    assert Ch(b, c, d) == (b & c) | (!b & d) && Maj(b, c, d) == (b & c) | (b & d) | (c & d) && Par(b, c, d) == b ^ c ^ d;
    hide Ch, Maj, Par;
  }

  /** The sum of the five terms, as numbers. */
  lemma SumIsAddition(x: Word, y: Word, z: Word, u: Word, v: Word)
    ensures Value(Sum(x, y, z, u, v)) == (Value(x) + Value(y) + Value(z) + Value(u) + Value(v)) % W32
  {
    var p, q, s := Plus(x, y), Plus(Plus(x, y), z), Plus(Plus(Plus(x, y), z), u);
    hide Plus, Value;
    PlusIsAddition(x, y);
    PlusIsAddition(p, z);
    PlusIsAddition(q, u);
    PlusIsAddition(s, v);
    FourSums(Value(x), Value(y), Value(z), Value(u), Value(v), Value(p), Value(q), Value(s));
  }

  lemma FourSums(x: nat, y: nat, z: nat, u: nat, v: nat, p: nat, q: nat, s: nat)
    requires p == (x + y) % W32 && q == (p + z) % W32 && s == (q + u) % W32
    ensures (s + v) % W32 == (x + y + z + u + v) % W32
  {
    ModLater(x + y, z);
    ModLater(x + y + z, u);
    ModLater(x + y + z + u, v);
  }

  lemma ModLater(m: nat, n: nat)
    ensures (m % W32 + n) % W32 == (m + n) % W32
  {
  }

  lemma SameValue(x: Word, y: Word)
    requires Value(x) == Value(y)
    ensures x == y
  {
    assert (x as nat) as Word == x && (y as nat) as Word == y;
  }

  /** Turn `t` on the buffers `v` with the word `w`: the function gives `f`, and A becomes `r`. */
  lemma Step(block: seq<Octet>, t: nat, v: Five, w: Word, f: Word, r: Word)
    requires |block| == 64 && Turns(block, H0, t) == v && W(block, t) == w && Gives(t, v.b, v.c, v.d, f)
    requires Value(r) == (Value(S5(v.a)) + Value(f) + Value(v.e) + Value(w) + Value(K(t))) % W32
    ensures Turns(block, H0, t + 1) == Five(r, v.a, S30(v.b), v.c, v.d)
  {
    hide W, Sum, F, S5, S30, K, Value, Gives;
    FunctionIs(t, v.b, v.c, v.d, f);
    SumIsAddition(S5(v.a), f, v.e, w, K(t));
    SameValue(Sum(S5(v.a), f, v.e, w, K(t)), r);
  }

  predicate Words0(block: seq<Octet>)
    requires |block| == 64
  {
    && W(block, 0) == 0x61626380 && W(block, 1) == 0x00000000 && W(block, 2) == 0x00000000 && W(block, 3) == 0x00000000
    && W(block, 4) == 0x00000000 && W(block, 5) == 0x00000000 && W(block, 6) == 0x00000000 && W(block, 7) == 0x00000000
    && W(block, 8) == 0x00000000 && W(block, 9) == 0x00000000 && W(block, 10) == 0x00000000 && W(block, 11) == 0x00000000
    && W(block, 12) == 0x00000000 && W(block, 13) == 0x00000000 && W(block, 14) == 0x00000000 && W(block, 15) == 0x00000018
  }

  predicate Words1(block: seq<Octet>)
    requires |block| == 64
  {
    && W(block, 16) == 0xC2C4C700 && W(block, 17) == 0x00000000 && W(block, 18) == 0x00000030 && W(block, 19) == 0x85898E01
    && W(block, 20) == 0x00000000 && W(block, 21) == 0x00000060 && W(block, 22) == 0x0B131C03 && W(block, 23) == 0x00000030
    && W(block, 24) == 0x85898EC1 && W(block, 25) == 0x16263806 && W(block, 26) == 0x00000000 && W(block, 27) == 0x00000180
    && W(block, 28) == 0x2C4C700C && W(block, 29) == 0x000000F0 && W(block, 30) == 0x93AFB507 && W(block, 31) == 0x5898E048
  }

  predicate Words2(block: seq<Octet>)
    requires |block| == 64
  {
    && W(block, 32) == 0x8E9A9202 && W(block, 33) == 0x00000600 && W(block, 34) == 0xB131C0F0 && W(block, 35) == 0x16263BC6
    && W(block, 36) == 0x4EBED41E && W(block, 37) == 0x626380A1 && W(block, 38) == 0x16263806 && W(block, 39) == 0x000018C0
    && W(block, 40) == 0xD2E138C4 && W(block, 41) == 0x00000F00 && W(block, 42) == 0x3AFB5079 && W(block, 43) == 0x898E04E5
    && W(block, 44) == 0xE2BA3C2B && W(block, 45) == 0x000060C0 && W(block, 46) == 0x053A37CD && W(block, 47) == 0x74458547
  }

  predicate Words3(block: seq<Octet>)
    requires |block| == 64
  {
    && W(block, 48) == 0xDA9415ED && W(block, 49) == 0x26380A16 && W(block, 50) == 0x626383A1 && W(block, 51) == 0x4EBF54DE
    && W(block, 52) == 0x3835B44B && W(block, 53) == 0x0000F600 && W(block, 54) == 0x1E84C7A3 && W(block, 55) == 0x98E04D98
    && W(block, 56) == 0x651D16A0 && W(block, 57) == 0x62658CA1 && W(block, 58) == 0x458544D6 && W(block, 59) == 0x44584CB7
    && W(block, 60) == 0x7BA06619 && W(block, 61) == 0x6380AEA2 && W(block, 62) == 0x0AE55269 && W(block, 63) == 0x627B49A1
  }

  predicate Words4(block: seq<Octet>)
    requires |block| == 64
  {
    && W(block, 64) == 0x7CD45C9D && W(block, 65) == 0x000F0000 && W(block, 66) == 0xFB50753A && W(block, 67) == 0xEC6765E8
    && W(block, 68) == 0xBA3C2BE2 && W(block, 69) == 0x0060C000 && W(block, 70) == 0x3A37CD05 && W(block, 71) == 0x458546F4
    && W(block, 72) == 0xB8599DD6 && W(block, 73) == 0x380A1A26 && W(block, 74) == 0x01E02203 && W(block, 75) == 0xE7CC3456
    && W(block, 76) == 0xE6E60B69 && W(block, 77) == 0x00F60A00 && W(block, 78) == 0x5795EF4F && W(block, 79) == 0x822E0879
  }

  lemma Schedule1(block: seq<Octet>)
    requires |block| == 64 && Words0(block)
    ensures Words1(block)
  {
    hide WordAt;
  }

  lemma Schedule2(block: seq<Octet>)
    requires |block| == 64 && Words1(block)
    ensures Words2(block)
  {
    hide WordAt;
  }

  lemma Schedule3(block: seq<Octet>)
    requires |block| == 64 && Words2(block)
    ensures Words3(block)
  {
    hide WordAt;
  }

  lemma Schedule4(block: seq<Octet>)
    requires |block| == 64 && Words3(block)
    ensures Words4(block)
  {
    hide WordAt;
  }

  lemma Run0(block: seq<Octet>)
    requires |block| == 64 && Words0(block)
    requires Turns(block, H0, 0) == Five(0x67452301, 0xEFCDAB89, 0x98BADCFE, 0x10325476, 0xC3D2E1F0)
    ensures Turns(block, H0, 8) == Five(0x9E8C07D4, 0x993E30C1, 0x0FF1F290, 0xB3F52677, 0xF3763846)
  {
    hide W, Turns;
    Step(block, 0, Five(0x67452301, 0xEFCDAB89, 0x98BADCFE, 0x10325476, 0xC3D2E1F0), 0x61626380, 0x98BADCFE, 0x0116FC33);
    Step(block, 1, Five(0x0116FC33, 0x67452301, 0x7BF36AE2, 0x98BADCFE, 0x10325476), 0x00000000, 0xFBFBFEFE, 0x8990536D);
    Step(block, 2, Five(0x8990536D, 0x0116FC33, 0x59D148C0, 0x7BF36AE2, 0x98BADCFE), 0x00000000, 0x7BF14AC0, 0xA1390F08);
    Step(block, 3, Five(0xA1390F08, 0x8990536D, 0xC045BF0C, 0x59D148C0, 0x7BF36AE2), 0x00000000, 0xD0411B8C, 0xCDD8E11B);
    Step(block, 4, Five(0xCDD8E11B, 0xA1390F08, 0x626414DB, 0xC045BF0C, 0x59D148C0), 0x00000000, 0x6064B40C, 0xCFD499DE);
    Step(block, 5, Five(0xCFD499DE, 0xCDD8E11B, 0x284E43C2, 0x626414DB, 0xC045BF0C), 0x00000000, 0x2A6C55C2, 0x3FC7CA40);
    Step(block, 6, Five(0x3FC7CA40, 0xCFD499DE, 0xF3763846, 0x284E43C2, 0x626414DB), 0x00000000, 0xE35E5A46, 0x993E30C1);
    Step(block, 7, Five(0x993E30C1, 0x3FC7CA40, 0xB3F52677, 0xF3763846, 0x284E43C2), 0x00000000, 0xF3F53246, 0x9E8C07D4);
  }

  lemma Run1(block: seq<Octet>)
    requires |block| == 64 && Words0(block)
    requires Turns(block, H0, 8) == Five(0x9E8C07D4, 0x993E30C1, 0x0FF1F290, 0xB3F52677, 0xF3763846)
    ensures Turns(block, H0, 16) == Five(0x20BDD62F, 0x196BEE77, 0x644A3DA5, 0x1181ED99, 0x18C623F9)
  {
    hide W, Turns;
    Step(block, 8, Five(0x9E8C07D4, 0x993E30C1, 0x0FF1F290, 0xB3F52677, 0xF3763846), 0x00000000, 0x2BF136B6, 0x4B6AE328);
    Step(block, 9, Five(0x4B6AE328, 0x9E8C07D4, 0x664F8C30, 0x0FF1F290, 0xB3F52677), 0x00000000, 0x077DF410, 0x8351F929);
    Step(block, 10, Five(0x8351F929, 0x4B6AE328, 0x27A301F5, 0x664F8C30, 0x0FF1F290), 0x00000000, 0x27270D30, 0xFBDA9E89);
    Step(block, 11, Five(0xFBDA9E89, 0x8351F929, 0x12DAB8CA, 0x27A301F5, 0x664F8C30), 0x00000000, 0x26F2B8DC, 0x63188FE4);
    Step(block, 12, Five(0x63188FE4, 0xFBDA9E89, 0x60D47E4A, 0x12DAB8CA, 0x27A301F5), 0x00000000, 0x60D03E4A, 0x4607B664);
    Step(block, 13, Five(0x4607B664, 0x63188FE4, 0x7EF6A7A2, 0x60D47E4A, 0x12DAB8CA), 0x00000000, 0x62D4F7AA, 0x9128F695);
    Step(block, 14, Five(0x9128F695, 0x4607B664, 0x18C623F9, 0x7EF6A7A2, 0x60D47E4A), 0x00000000, 0x38F623E2, 0x196BEE77);
    Step(block, 15, Five(0x196BEE77, 0x9128F695, 0x1181ED99, 0x18C623F9, 0x7EF6A7A2), 0x00000018, 0x19C6E5F9, 0x20BDD62F);
  }

  lemma Run2(block: seq<Octet>)
    requires |block| == 64 && Words1(block)
    requires Turns(block, H0, 16) == Five(0x20BDD62F, 0x196BEE77, 0x644A3DA5, 0x1181ED99, 0x18C623F9)
    ensures Turns(block, H0, 24) == Five(0xD541F12D, 0x21283486, 0x0CE88EFF, 0x868DEC32, 0x7F67875F)
  {
    hide W, Turns;
    Step(block, 16, Five(0x20BDD62F, 0x196BEE77, 0x644A3DA5, 0x1181ED99, 0x18C623F9), 0xC2C4C700, 0x00CA2DAD, 0x4E925823);
    Step(block, 17, Five(0x4E925823, 0x20BDD62F, 0xC65AFB9D, 0x644A3DA5, 0x1181ED99), 0x00000000, 0x445AFB8D, 0x82AA6728);
    Step(block, 18, Five(0x82AA6728, 0x4E925823, 0xC82F758B, 0xC65AFB9D, 0x644A3DA5), 0x00000030, 0xC84AF39F, 0xDC64901D);
    Step(block, 19, Five(0xDC64901D, 0x82AA6728, 0xD3A49608, 0xC82F758B, 0xC65AFB9D), 0x85898E01, 0xCAA5168B, 0xFD9E1D7D);
    Step(block, 20, Five(0xFD9E1D7D, 0xDC64901D, 0x20AA99CA, 0xD3A49608, 0xC82F758B), 0x00000000, 0x2F6A9FDF, 0x1A37B0CA);
    Step(block, 21, Five(0x1A37B0CA, 0xFD9E1D7D, 0x77192407, 0x20AA99CA, 0xD3A49608), 0x00000060, 0xAA2DA0B0, 0x33A23BFC);
    Step(block, 22, Five(0x33A23BFC, 0x1A37B0CA, 0x7F67875F, 0x77192407, 0x20AA99CA), 0x0B131C03, 0x12491392, 0x21283486);
    Step(block, 23, Five(0x21283486, 0x33A23BFC, 0x868DEC32, 0x7F67875F, 0x77192407), 0x00000030, 0xCA485091, 0xD541F12D);
  }

  lemma Run3(block: seq<Octet>)
    requires |block| == 64 && Words1(block)
    requires Turns(block, H0, 24) == Five(0xD541F12D, 0x21283486, 0x0CE88EFF, 0x868DEC32, 0x7F67875F)
    ensures Turns(block, H0, 32) == Five(0x3B845D33, 0x1267B407, 0x717EEBD7, 0xA0DC2D4B, 0xD2AA1365)
  {
    hide W, Turns;
    Step(block, 24, Five(0xD541F12D, 0x21283486, 0x0CE88EFF, 0x868DEC32, 0x7F67875F), 0x85898EC1, 0xAB4D564B, 0xC7567DC6);
    Step(block, 25, Five(0xC7567DC6, 0xD541F12D, 0x884A0D21, 0x0CE88EFF, 0x868DEC32), 0x16263806, 0x51E372F3, 0x48413BA4);
    Step(block, 26, Five(0x48413BA4, 0xC7567DC6, 0x75507C4B, 0x884A0D21, 0x0CE88EFF), 0x00000000, 0x3A4C0CAC, 0xBE35FBD5);
    Step(block, 27, Five(0xBE35FBD5, 0x48413BA4, 0xB1D59F71, 0x75507C4B, 0x884A0D21), 0x00000180, 0x8CC4D89E, 0x4AA84D97);
    Step(block, 28, Five(0x4AA84D97, 0xBE35FBD5, 0x12104EE9, 0xB1D59F71, 0x75507C4B), 0x2C4C700C, 0x1DF02A4D, 0x8370B52E);
    Step(block, 29, Five(0x8370B52E, 0x4AA84D97, 0x6F8D7EF5, 0x12104EE9, 0xB1D59F71), 0x000000F0, 0x37357D8B, 0xC5FBAF5D);
    Step(block, 30, Five(0xC5FBAF5D, 0x8370B52E, 0xD2AA1365, 0x6F8D7EF5, 0x12104EE9), 0x93AFB507, 0x3E57D8BE, 0x1267B407);
    Step(block, 31, Five(0x1267B407, 0xC5FBAF5D, 0xA0DC2D4B, 0xD2AA1365, 0x6F8D7EF5), 0x5898E048, 0xB78D9173, 0x3B845D33);
  }

  lemma Run4(block: seq<Octet>)
    requires |block| == 64 && Words2(block)
    requires Turns(block, H0, 32) == Five(0x3B845D33, 0x1267B407, 0x717EEBD7, 0xA0DC2D4B, 0xD2AA1365)
    ensures Turns(block, H0, 40) == Five(0x32DE1CBA, 0x4C986405, 0xF718E5CF, 0x03D447F6, 0xF72EEC32)
  {
    hide W, Turns;
    Step(block, 32, Five(0x3B845D33, 0x1267B407, 0x717EEBD7, 0xA0DC2D4B, 0xD2AA1365), 0x8E9A9202, 0xC3C5729B, 0x046FAA0A);
    Step(block, 33, Five(0x046FAA0A, 0x3B845D33, 0xC499ED01, 0x717EEBD7, 0xA0DC2D4B), 0x00000600, 0x8E635BE5, 0x2C0EBC11);
    Step(block, 34, Five(0x2C0EBC11, 0x046FAA0A, 0xCEE1174C, 0xC499ED01, 0x717EEBD7), 0xB131C0F0, 0x0E175047, 0x21796AD4);
    Step(block, 35, Five(0x21796AD4, 0x2C0EBC11, 0x811BEA82, 0xCEE1174C, 0xC499ED01), 0x16263BC6, 0x63F441DF, 0xDCBBB0CB);
    Step(block, 36, Five(0xDCBBB0CB, 0x21796AD4, 0x4B03AF04, 0x811BEA82, 0xCEE1174C), 0x4EBED41E, 0xEB612F52, 0x0F511FD8);
    Step(block, 37, Five(0x0F511FD8, 0xDCBBB0CB, 0x085E5AB5, 0x4B03AF04, 0x811BEA82), 0x626380A1, 0x9FE6457A, 0xDC63973F);
    Step(block, 38, Five(0xDC63973F, 0x0F511FD8, 0xF72EEC32, 0x085E5AB5, 0x4B03AF04), 0x16263806, 0xF021A95F, 0x4C986405);
    Step(block, 39, Five(0x4C986405, 0xDC63973F, 0x03D447F6, 0xF72EEC32, 0x085E5AB5), 0x000018C0, 0x28993CFB, 0x32DE1CBA);
  }

  lemma Run5(block: seq<Octet>)
    requires |block| == 64 && Words2(block)
    requires Turns(block, H0, 40) == Five(0x32DE1CBA, 0x4C986405, 0xF718E5CF, 0x03D447F6, 0xF72EEC32)
    ensures Turns(block, H0, 48) == Five(0xBEAD02CA, 0xA01B846C, 0x8714787C, 0x503CA382, 0xFB86C6AB)
  {
    hide W, Turns;
    Step(block, 40, Five(0x32DE1CBA, 0x4C986405, 0xF718E5CF, 0x03D447F6, 0xF72EEC32), 0xD2E138C4, 0x479865C7, 0xFC87DEDF);
    Step(block, 41, Five(0xFC87DEDF, 0x32DE1CBA, 0x53261901, 0xF718E5CF, 0x03D447F6), 0x00000F00, 0x731E1D8B, 0x970A0D5C);
    Step(block, 42, Five(0x970A0D5C, 0xFC87DEDF, 0x8CB7872E, 0x53261901, 0xF718E5CF), 0x3AFB5079, 0xDCA79F0F, 0x7F193DC5);
    Step(block, 43, Five(0x7F193DC5, 0x970A0D5C, 0xFF21F7B7, 0x8CB7872E, 0x53261901), 0x898E04E5, 0x9F23873E, 0xEE1B1AAF);
    Step(block, 44, Five(0xEE1B1AAF, 0x7F193DC5, 0x25C28357, 0xFF21F7B7, 0x8CB7872E), 0xE2BA3C2B, 0x7F01B7D7, 0x40F28E09);
    Step(block, 45, Five(0x40F28E09, 0xEE1B1AAF, 0x5FC64F71, 0x25C28357, 0xFF21F7B7), 0x000060C0, 0x6FC20B77, 0x1C51E1F2);
    Step(block, 46, Five(0x1C51E1F2, 0x40F28E09, 0xFB86C6AB, 0x5FC64F71, 0x25C28357), 0x053A37CD, 0x5BC6CE29, 0xA01B846C);
    Step(block, 47, Five(0xA01B846C, 0x1C51E1F2, 0x503CA382, 0xFB86C6AB, 0x5FC64F71), 0x74458547, 0x5814E3A2, 0xBEAD02CA);
  }

  lemma Run6(block: seq<Octet>)
    requires |block| == 64 && Words3(block)
    requires Turns(block, H0, 48) == Five(0xBEAD02CA, 0xA01B846C, 0x8714787C, 0x503CA382, 0xFB86C6AB)
    ensures Turns(block, H0, 56) == Five(0x5E6456AF, 0x7B71F76D, 0x09FA7C76, 0x792410DB, 0x8E11EB59)
  {
    hide W, Turns;
    Step(block, 48, Five(0xBEAD02CA, 0xA01B846C, 0x8714787C, 0x503CA382, 0xFB86C6AB), 0xDA9415ED, 0x801CA06C, 0xBAF39337);
    Step(block, 49, Five(0xBAF39337, 0xBEAD02CA, 0x2806E11B, 0x8714787C, 0x503CA382), 0x26380A16, 0xAE04605A, 0x120731C5);
    Step(block, 50, Five(0x120731C5, 0xBAF39337, 0xAFAB40B2, 0x2806E11B, 0x8714787C), 0x626383A1, 0xAAA3C133, 0x641DB2CE);
    Step(block, 51, Five(0x641DB2CE, 0x120731C5, 0xEEBCE4CD, 0xAFAB40B2, 0x2806E11B), 0x4EBF54DE, 0xAEAF60C5, 0x3847AD66);
    Step(block, 52, Five(0x3847AD66, 0x641DB2CE, 0x4481CC71, 0xEEBCE4CD, 0xAFAB40B2), 0x3835B44B, 0x649DE4CD, 0xE490436D);
    Step(block, 53, Five(0xE490436D, 0x3847AD66, 0x99076CB3, 0x4481CC71, 0xEEBCE4CD), 0x0000F600, 0x1807EC73, 0x27E9F1D8);
    Step(block, 54, Five(0x27E9F1D8, 0xE490436D, 0x8E11EB59, 0x99076CB3, 0x4481CC71), 0x1E84C7A3, 0x8C116B79, 0x7B71F76D);
    Step(block, 55, Five(0x7B71F76D, 0x27E9F1D8, 0x792410DB, 0x8E11EB59, 0x99076CB3), 0x98E04D98, 0x2F21F1D9, 0x5E6456AF);
  }

  lemma Run7(block: seq<Octet>)
    requires |block| == 64 && Words3(block)
    requires Turns(block, H0, 56) == Five(0x5E6456AF, 0x7B71F76D, 0x09FA7C76, 0x792410DB, 0x8E11EB59)
    ensures Turns(block, H0, 64) == Five(0x6B61C9E1, 0xB66C020B, 0x9523272C, 0xF5D5B051, 0x8FD4B796)
  {
    hide W, Turns;
    Step(block, 56, Five(0x5E6456AF, 0x7B71F76D, 0x09FA7C76, 0x792410DB, 0x8E11EB59), 0x651D16A0, 0x7970747F, 0xC846093F);
    Step(block, 57, Five(0xC846093F, 0x5E6456AF, 0x5EDC7DDB, 0x09FA7C76, 0x792410DB), 0x62658CA1, 0x5EFC7CFF, 0xD262FF50);
    Step(block, 58, Five(0xD262FF50, 0xC846093F, 0xD79915AB, 0x5EDC7DDB, 0x09FA7C76), 0x458544D6, 0xDEDC1DBB, 0x09D785FD);
    Step(block, 59, Five(0x09D785FD, 0xD262FF50, 0xF211824F, 0xD79915AB, 0x5EDC7DDB), 0x44584CB7, 0xD211974B, 0x3F52DE5A);
    Step(block, 60, Five(0x3F52DE5A, 0x09D785FD, 0x3498BFD4, 0xF211824F, 0xD79915AB), 0x7BA06619, 0xCF5EB866, 0xD756C147);
    Step(block, 61, Five(0xD756C147, 0x3F52DE5A, 0x4275E17F, 0x3498BFD4, 0xF211824F), 0x6380AEA2, 0x49BF80F1, 0x548C9CB2);
    Step(block, 62, Five(0x548C9CB2, 0xD756C147, 0x8FD4B796, 0x4275E17F, 0x3498BFD4), 0x0AE55269, 0x1AF797AE, 0xB66C020B);
    Step(block, 63, Five(0xB66C020B, 0x548C9CB2, 0xF5D5B051, 0x8FD4B796, 0x4275E17F), 0x627B49A1, 0x2E8D9B75, 0x6B61C9E1);
  }

  lemma Run8(block: seq<Octet>)
    requires |block| == 64 && Words4(block)
    requires Turns(block, H0, 64) == Five(0x6B61C9E1, 0xB66C020B, 0x9523272C, 0xF5D5B051, 0x8FD4B796)
    ensures Turns(block, H0, 72) == Five(0x39859DE7, 0xC199F8C7, 0x8FC96230, 0x125C24F0, 0xDE37534A)
  {
    hide W, Turns;
    Step(block, 64, Five(0x6B61C9E1, 0xB66C020B, 0x9523272C, 0xF5D5B051, 0x8FD4B796), 0x7CD45C9D, 0xD69A9576, 0x19DFA7AC);
    Step(block, 65, Five(0x19DFA7AC, 0x6B61C9E1, 0xED9B0082, 0x9523272C, 0xF5D5B051), 0x000F0000, 0x13D9EE4F, 0x101655F9);
    Step(block, 66, Five(0x101655F9, 0x19DFA7AC, 0x5AD87278, 0xED9B0082, 0x9523272C), 0xFB50753A, 0xAE9CD556, 0x0C3DF2B4);
    Step(block, 67, Five(0x0C3DF2B4, 0x101655F9, 0x0677E9EB, 0x5AD87278, 0xED9B0082), 0xEC6765E8, 0x4CB9CE6A, 0x78DD4D2B);
    Step(block, 68, Five(0x78DD4D2B, 0x0C3DF2B4, 0x4405957E, 0x0677E9EB, 0x5AD87278), 0xBA3C2BE2, 0x4E4F8E21, 0x497093C0);
    Step(block, 69, Five(0x497093C0, 0x78DD4D2B, 0x030F7CAD, 0x4405957E, 0x0677E9EB), 0x0060C000, 0x3FD7A4F8, 0x3F2588C2);
    Step(block, 70, Five(0x3F2588C2, 0x497093C0, 0xDE37534A, 0x030F7CAD, 0x4405957E), 0x3A37CD05, 0x9448BC27, 0xC199F8C7);
    Step(block, 71, Five(0xC199F8C7, 0x3F2588C2, 0x125C24F0, 0xDE37534A, 0x030F7CAD), 0x458546F4, 0xF34EFF78, 0x39859DE7);
  }

  lemma Run9(block: seq<Octet>)
    requires |block| == 64 && Words4(block)
    requires Turns(block, H0, 72) == Five(0x39859DE7, 0xC199F8C7, 0x8FC96230, 0x125C24F0, 0xDE37534A)
    ensures Turns(block, H0, 80) == Five(0x42541B35, 0x5738D5E1, 0x21834873, 0x681E6DF6, 0xD8FDF6AD)
  {
    hide W, Turns;
    Step(block, 72, Five(0x39859DE7, 0xC199F8C7, 0x8FC96230, 0x125C24F0, 0xDE37534A), 0xB8599DD6, 0x5C0CBE07, 0xEDB42DE4);
    Step(block, 73, Five(0xEDB42DE4, 0x39859DE7, 0xF0667E31, 0x8FC96230, 0x125C24F0), 0x380A1A26, 0x462A81E6, 0x11793F6F);
    Step(block, 74, Five(0x11793F6F, 0xEDB42DE4, 0xCE616779, 0xF0667E31, 0x8FC96230), 0x01E02203, 0xD3B334AC, 0x5EE76897);
    Step(block, 75, Five(0x5EE76897, 0x11793F6F, 0x3B6D0B79, 0xCE616779, 0xF0667E31), 0xE7CC3456, 0xE475536F, 0x63F7DAB7);
    Step(block, 76, Five(0x63F7DAB7, 0x5EE76897, 0xC45E4FDB, 0x3B6D0B79, 0xCE616779), 0xE6E60B69, 0xA1D42C35, 0xA079B7D9);
    Step(block, 77, Five(0xA079B7D9, 0x63F7DAB7, 0xD7B9DA25, 0xC45E4FDB, 0x3B6D0B79), 0x00F60A00, 0x70104F49, 0x860D21CC);
    Step(block, 78, Five(0x860D21CC, 0xA079B7D9, 0xD8FDF6AD, 0xD7B9DA25, 0xC45E4FDB), 0x5795EF4F, 0xAF3D9B51, 0x5738D5E1);
    Step(block, 79, Five(0x5738D5E1, 0x860D21CC, 0x681E6DF6, 0xD8FDF6AD, 0xD7B9DA25), 0x822E0879, 0x36EEBA97, 0x42541B35);
  }

  // ----- the digest ---------------------------------------------------------------------------------------

  /** The padded message: 24 bits, and their number. */
  lemma AbcPadded()
    ensures var p := Pad([0x61, 0x62, 0x63]);
            && |p| == 64 && p[0] == 0x61 && p[1] == 0x62 && p[2] == 0x63 && p[3] == 0x80 && p[63] == 24
            && forall i | 4 <= i < 63 :: p[i] == 0
  {
    LengthIs24();
    hide LengthOctets;
  }

  lemma LengthIs24()
    ensures LengthOctets(24)[7] == 24 && forall i | 0 <= i < 7 :: LengthOctets(24)[i] == 0
  {
    hide LengthOctet, Weight;
    LastOctet();
    forall i | 0 <= i < 7
      ensures LengthOctets(24)[i] == 0
    {
      HighOctet(i);
    }
  }

  lemma LastOctet()
    ensures LengthOctet(24, 7) == 24
  {
  }

  lemma HighOctet(i: nat)
    requires i < 7
    ensures LengthOctet(24, i) == 0
  {
    assert Weight(i) == 256 * Weight(i + 1);
    Below(24, Weight(i));
    hide Weight;
  }

  lemma Below(n: nat, d: nat)
    requires n < d
    ensures n / d == 0
  {
  }

  lemma AbcWords(p: seq<Octet>)
    requires |p| == 64 && p[0] == 0x61 && p[1] == 0x62 && p[2] == 0x63 && p[3] == 0x80 && p[63] == 24
    requires forall i | 4 <= i < 63 :: p[i] == 0
    ensures Words0(p)
  {
  }

  /** The digest of "abc" is A9993E36 4706816A BA3E2571 7850C26C 9CD0D89D. */
  lemma DigestOfAbc()
    ensures Digest([0x61, 0x62, 0x63]).Words() == [0xA9993E36, 0x4706816A, 0xBA3E2571, 0x7850C26C, 0x9CD0D89D]
  {
    var p := Pad([0x61, 0x62, 0x63]);
    AbcPadded();
    AbcWords(p);
    hide Words0, Words1, Words2, Words3, Words4, Turns, W, Pad, WordAt;
    Schedule1(p);
    Schedule2(p);
    Schedule3(p);
    Schedule4(p);
    assert Turns(p, H0, 0) == H0 by { TurnsBegin(p); }
    Run0(p);
    Run1(p);
    Run2(p);
    Run3(p);
    Run4(p);
    Run5(p);
    Run6(p);
    Run7(p);
    Run8(p);
    Run9(p);
    OneBlock(p);
    assert AddFive(H0, Five(0x42541B35, 0x5738D5E1, 0x21834873, 0x681E6DF6, 0xD8FDF6AD)) == Five(0xA9993E36, 0x4706816A, 0xBA3E2571, 0x7850C26C, 0x9CD0D89D);
  }

  lemma TurnsBegin(p: seq<Octet>)
    requires |p| == 64
    ensures Turns(p, H0, 0) == H0
  {
  }

  lemma OneBlock(p: seq<Octet>)
    requires |p| == 64
    ensures HashBlocks(p) == AddFive(H0, Turns(p, H0, 80))
  {
    hide Turns, AddFive;
    assert p[..0] == [] && p[0..] == p;
  }
}
