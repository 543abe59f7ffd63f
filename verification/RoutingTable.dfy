/** Longest-prefix match over the routing table list of sr_router.c. */
module RoutingTable {
  import opened Options

  /** An IPv4 address or mask: a 32-bit number in host order. */
  type Ip = x: int | 0 <= x < 0x1_0000_0000

  /** struct sr_rt with its addresses in host order. */
  datatype Route = Route(dest: Ip, mask: Ip, gw: Ip, iface: nat)

  /** Bitwise `&` on unsigned numbers, from the lowest bit up. */
  function And(a: nat, b: nat): (c: nat)
    ensures c <= a && c <= b
  {
    if a == 0 || b == 0 then 0
    else (if a % 2 == 1 && b % 2 == 1 then 1 else 0) + 2 * And(a / 2, b / 2)
  }

  /** The part of an address that a mask keeps. */
  function Masked(ip: Ip, mask: Ip): Ip {
    And(ip, mask)
  }

  predicate Bit(n: nat, i: nat)
    decreases i
  {
    if i == 0 then n % 2 == 1 else Bit(n / 2, i - 1)
  }

  /** Of an address a mask keeps exactly the bits it has itself, contiguous or not. */
  lemma MaskKeepsItsBits(ip: Ip, mask: Ip, i: nat)
    ensures Bit(Masked(ip, mask), i) <==> Bit(ip, i) && Bit(mask, i)
  {
    AndKeepsCommonBits(ip, mask, i);
  }

  lemma {:induction false} AndKeepsCommonBits(a: nat, b: nat, i: nat)
    ensures Bit(And(a, b), i) <==> Bit(a, i) && Bit(b, i)
    decreases i
  {
    if a == 0 || b == 0 {
      NoBits(i);
    } else if i > 0 {
      assert And(a, b) / 2 == And(a / 2, b / 2);
      AndKeepsCommonBits(a / 2, b / 2, i - 1);
    }
  }

  lemma {:induction false} NoBits(i: nat)
    ensures !Bit(0, i)
  {
    if i > 0 {
      NoBits(i - 1);
    }
  }

  predicate Matches(r: Route, ip: Ip) {
    Masked(ip, r.mask) == Masked(r.dest, r.mask)
  }

  /** An entry the search can choose: it matches and its mask is not zero. */
  predicate Eligible(r: Route, ip: Ip) {
    Matches(r, ip) && r.mask > 0
  }

  function MaskOf(best: Option<Route>): Ip {
    if best.Some? then best.value.mask else 0
  }

  /** The choice among the first entries of the table. */
  function Best(table: seq<Route>, ip: Ip): Option<Route> {
    if table == [] then None
    else
      var last := table[|table| - 1];
      var b := Best(table[..|table| - 1], ip);
      if Matches(last, ip) && last.mask > MaskOf(b) then Some(last) else b
  }

  /** sr_findLPMentry: one pass keeping the best entry so far and its mask. */
  method FindLpmEntry(table: seq<Route>, ip: Ip) returns (best: Option<Route>)
    ensures best == Best(table, ip)
  {
    hide Masked;
    best := None;
    var bestMask: Ip := 0;
    var i := 0;
    while i < |table|
      invariant 0 <= i <= |table|
      invariant best == Best(table[..i], ip)
      invariant bestMask == MaskOf(best)
    {
      assert table[..i + 1][..i] == table[..i];
      if Matches(table[i], ip) && table[i].mask > bestMask {
        best := Some(table[i]);
        bestMask := table[i].mask;
      }
      i := i + 1;
    }
    assert table[..i] == table;
  }

  /** What it means for `b` to be a right answer. */
  ghost predicate IsMaximal(table: seq<Route>, ip: Ip, b: Option<Route>) {
    && (b.None? ==> forall r <- table :: !Eligible(r, ip))
    && (b.Some? ==> b.value in table && Eligible(b.value, ip)
                    && forall r <- table :: Eligible(r, ip) ==> r.mask <= b.value.mask)
  }

  /** The result is an eligible entry of maximal mask; there is none exactly when no entry is eligible. */
  lemma {:induction false} BestIsMaximal(table: seq<Route>, ip: Ip)
    ensures IsMaximal(table, ip, Best(table, ip))
  {
    hide Masked;
    if table != [] {
      var front, last := table[..|table| - 1], table[|table| - 1];
      BestIsMaximal(front, ip);
      var b := Best(front, ip);
      assert forall r <- table :: r in front || r == last;
    }
  }

  /** No two entries for the same network. */
  ghost predicate Distinct(table: seq<Route>) {
    forall i, j | 0 <= i < j < |table| :: !SameNetwork(table[i], table[j])
  }

  predicate SameNetwork(a: Route, b: Route) {
    a.mask == b.mask && Masked(a.dest, a.mask) == Masked(b.dest, b.mask)
  }

  /** Without duplicate networks the order of the table does not matter. */
  lemma OrderDoesNotMatter(table: seq<Route>, other: seq<Route>, ip: Ip)
    requires Distinct(table) && multiset(table) == multiset(other)
    ensures Best(table, ip) == Best(other, ip)
  {
    hide Best, Masked;
    BestIsMaximal(table, ip);
    BestIsMaximal(other, ip);
    SameMembers(table, other);
    var b, c := Best(table, ip), Best(other, ip);
    if b.Some? && c.Some? {
      assert SameNetwork(b.value, c.value);
      var i :| 0 <= i < |table| && table[i] == b.value;
      var j :| 0 <= j < |table| && table[j] == c.value;
      assert SameNetwork(table[i], table[j]) && SameNetwork(table[j], table[i]);
    }
  }

  lemma SameMembers(table: seq<Route>, other: seq<Route>)
    requires multiset(table) == multiset(other)
    ensures forall r :: r in table <==> r in other
  {
    forall r
      ensures r in table <==> r in other
    {
      assert r in table <==> r in multiset(table);
      assert r in other <==> r in multiset(other);
    }
  }

  /** A second entry for one network is never chosen over an earlier one: the first in the list wins. */
  lemma {:induction false} FirstOfNetworkWins(table: seq<Route>, i: nat, j: nat, ip: Ip)
    requires i < j < |table| && SameNetwork(table[i], table[j]) && table[i] != table[j]
    requires table[j] !in table[..j]
    requires table[j] !in table[j + 1..]
    ensures Best(table, ip) != Some(table[j])
  {
    hide Masked;
    var front, last := table[..|table| - 1], table[|table| - 1];
    if j == |table| - 1 {
      assert table[..j] == front && table[i] in front;
      BestIsMaximal(front, ip);
      var b := Best(front, ip);
      assert Matches(last, ip) ==> Matches(table[i], ip);
      assert b.Some? ==> b.value in front;
    } else {
      assert front[..j] == table[..j];
      assert front[j + 1..] == table[j + 1..|table| - 1];
      FirstOfNetworkWins(front, i, j, ip);
      assert last in table[j + 1..];
    }
  }

  /** A default route (mask 0) is never chosen, whatever else the table holds. */
  lemma DefaultRouteIsIgnored(table: seq<Route>, ip: Ip)
    ensures Best(table, ip).Some? ==> Best(table, ip).value.mask != 0
    ensures (forall r <- table :: r.mask == 0) ==> Best(table, ip) == None
  {
    hide Best, Masked;
    BestIsMaximal(table, ip);
  }

  // ----- contiguous masks ----------------------------------------------------------------------

  function Pow2(n: nat): nat {
    if n == 0 then 1 else 2 * Pow2(n - 1)
  }

  lemma {:induction false} Pow2Grows(m: nat, n: nat)
    requires m < n
    ensures Pow2(m) < Pow2(n)
  {
    Pow2Positive(m);
    if m < n - 1 {
      Pow2Grows(m, n - 1);
    }
  }

  lemma {:induction false} Pow2Positive(n: nat)
    ensures Pow2(n) >= 1
  {
    if n > 0 {
      Pow2Positive(n - 1);
    }
  }

  /** The mask of prefix length `n`: `n` ones, then zeros. */
  function PrefixMask(n: nat): int
    requires n <= 32
  {
    Pow2(32) - Pow2(32 - n)
  }

  /** On contiguous masks the numeric comparison of the search is the comparison of prefix lengths. */
  lemma MaskOrderIsPrefixOrder(m: nat, n: nat)
    requires m <= 32 && n <= 32
    ensures PrefixMask(m) < PrefixMask(n) <==> m < n
  {
    hide Pow2;
    if m < n {
      Pow2Grows(32 - n, 32 - m);
    } else if n < m {
      Pow2Grows(32 - m, 32 - n);
    }
  }

  lemma Pow2Step(m: nat)
    requires m > 0
    ensures Pow2(m) == 2 * Pow2(m - 1) && Pow2(m - 1) >= 1
  {
    Pow2Positive(m - 1);
  }

  /** One bit, and the bits above it. */
  lemma AndStep(a: nat, b: nat)
    ensures And(a, b) == (if a % 2 == 1 && b % 2 == 1 then 1 else 0) + 2 * And(a / 2, b / 2)
  {
  }

  /** A mask of ones keeps everything. */
  lemma {:induction false} AllOnesKeep(a: nat, m: nat)
    requires a < Pow2(m)
    ensures Pow2(m) >= 1 && And(a, Pow2(m) - 1) == a
    decreases m
  {
    if m > 0 {
      hide *;
      Pow2Step(m);
      AllOnesKeep(a / 2, m - 1);
      OddMask(a, Pow2(m - 1));
    }
  }

  lemma OddMask(a: nat, p: nat)
    requires p > 0 && And(a / 2, p - 1) == a / 2
    ensures And(a, 2 * p - 1) == a
  {
    hide *;
    assert (2 * p - 1) / 2 == p - 1 && (2 * p - 1) % 2 == 1;
    AndStep(a, 2 * p - 1);
  }

  lemma ModHalf(a: nat, p: nat)
    requires p > 0
    ensures a % (2 * p) == 2 * (a / 2 % p) + a % 2
  {
    var q, r := a / 2 / p, a / 2 % p;
    assert a / 2 == p * q + r;
    assert a == 2 * p * q + (2 * r + a % 2);
    RemainderIs(a, 2 * p, q, 2 * r + a % 2);
  }

  lemma RemainderIs(a: nat, p: nat, q: nat, r: nat)
    requires a == p * q + r && r < p
    ensures a % p == r && a / p == q
  {
    var s, u := a / p, a % p;
    assert a == p * s + u;
    if s < q {
      MulGrows(p, s + 1, q);
    } else if q < s {
      MulGrows(p, q + 1, s);
    }
  }

  lemma MulGrows(p: nat, a: nat, b: nat)
    requires a <= b
    ensures p * a <= p * b
  {
  }

  /** Ones above `k` zeros take off the remainder modulo 2^k. */
  lemma {:induction false} PrefixKeeps(a: nat, m: nat, k: nat)
    requires a < Pow2(m) && k <= m
    ensures Pow2(k) > 0 && Pow2(m) >= Pow2(k) && And(a, Pow2(m) - Pow2(k)) == a - a % Pow2(k)
    decreases k
  {
    if k == 0 {
      AllOnesKeep(a, m);
    } else {
      hide *;
      Pow2Step(m);
      Pow2Step(k);
      PrefixKeeps(a / 2, m - 1, k - 1);
      EvenMask(a, Pow2(m - 1), Pow2(k - 1));
    }
  }

  lemma EvenMask(a: nat, p: nat, q: nat)
    requires 0 < q <= p && And(a / 2, p - q) == a / 2 - a / 2 % q
    ensures And(a, 2 * p - 2 * q) == a - a % (2 * q)
  {
    hide *;
    assert (2 * p - 2 * q) / 2 == p - q && (2 * p - 2 * q) % 2 == 0;
    AndStep(a, 2 * p - 2 * q);
    ModHalf(a, q);
  }

  lemma AddressBits()
    ensures Pow2(32) == 0x1_0000_0000
  {
    assert Pow2(8) == 0x100;
    assert Pow2(16) == 0x1_0000;
    assert Pow2(24) == 0x100_0000;
  }

  /** A route with a mask of prefix length `n` matches exactly the addresses that share its first `n` bits. */
  lemma PrefixMatches(r: Route, ip: Ip, n: nat)
    requires n <= 32 && r.mask == PrefixMask(n)
    ensures Pow2(32 - n) > 0
    ensures Masked(ip, r.mask) == ip - ip % Pow2(32 - n)
    ensures Matches(r, ip) <==> ip / Pow2(32 - n) == r.dest / Pow2(32 - n)
  {
    hide *;
    PrefixOf(ip, r.mask, n);
    PrefixOf(r.dest, r.mask, n);
    KeptMatches(r, ip, Pow2(32 - n));
  }

  lemma PrefixOf(ip: Ip, mask: Ip, n: nat)
    requires n <= 32 && mask == PrefixMask(n)
    ensures Pow2(32 - n) > 0 && Masked(ip, mask) == ip - ip % Pow2(32 - n)
  {
    hide Pow2, And;
    AddressBits();
    PrefixKeeps(ip, 32, 32 - n);
  }

  lemma KeptMatches(r: Route, ip: Ip, p: nat)
    requires p > 0 && Masked(ip, r.mask) == ip - ip % p && Masked(r.dest, r.mask) == r.dest - r.dest % p
    ensures Matches(r, ip) <==> ip / p == r.dest / p
  {
    hide Masked;
    SameQuotient(ip, r.dest, p);
  }

  lemma SameQuotient(a: nat, b: nat, p: nat)
    requires p > 0
    ensures a - a % p == b - b % p <==> a / p == b / p
  {
    var q, s := a / p, b / p;
    assert a == p * q + a % p && b == p * s + b % p;
    if q < s {
      MulGrows(p, q + 1, s);
    } else if s < q {
      MulGrows(p, s + 1, q);
    }
  }

  /** With contiguous masks the entry found shares its prefix with the address, and no entry of the table
      shares a longer one. */
  lemma LongestPrefix(table: seq<Route>, ip: Ip, n: nat, r: Route, m: nat)
    requires n <= 32 && m <= 32
    requires Best(table, ip).Some? && Best(table, ip).value.mask == PrefixMask(n)
    requires r in table && r.mask == PrefixMask(m)
    ensures Pow2(32 - n) > 0 && Pow2(32 - m) > 0
    ensures ip / Pow2(32 - n) == Best(table, ip).value.dest / Pow2(32 - n)
    ensures ip / Pow2(32 - m) == r.dest / Pow2(32 - m) ==> m <= n
  {
    hide Best, Masked, Pow2;
    BestIsMaximal(table, ip);
    PrefixMatches(Best(table, ip).value, ip, n);
    PrefixMatches(r, ip, m);
    MaskOrderIsPrefixOrder(n, m);
    MaskOrderIsPrefixOrder(0, m);
    if m > 0 && Matches(r, ip) {
      assert Eligible(r, ip);
    }
  }
}
