/** A call that comes to its end has expired every request after those its answers waited for; so some calls cannot. */
module ArpOrder {
  import opened Options
  import opened RoutingTable
  import opened ArpSpec
  import opened ArpInvariant
  import opened ArpExpiry
  import opened ArpFailure

  /** The answer to a packet from `src` was possible, and what it waited on is gone. */
  ghost predicate Settled(rt: Router, entries: seq<Entry>, spent: set<Request>, hop: Ip, src: Ip, gone: set<Ip>) {
    && Routed(rt, hop, src)
    && (WaitsOn(rt, entries, src).Some? && Stuck(spent, WaitsOn(rt, entries, src).value) ==> WaitsOn(rt, entries, src).value in gone)
  }

  /** The addresses of the first expiries. */
  function IpsOf(news: seq<Expiry>): set<Ip> {
    set e | e in news :: e.request.ip
  }

  /** Each expiry comes after those that its answers had to wait for. */
  ghost predicate InOrder(rt: Router, entries: seq<Entry>, spent: set<Request>, news: seq<Expiry>) {
    forall i, r, src | 0 <= i < |news| && r in spent && r.ip == news[i].request.ip && src in Sources(r.packets) ::
      Settled(rt, entries, spent, r.ip, src, IpsOf(news[..i]))
  }

  ghost predicate OnePerIp(spent: set<Request>) {
    forall a, b | a in spent && b in spent && a.ip == b.ip :: a == b
  }

  lemma SpentAreUnique(requests: seq<Request>, now: int)
    requires UniqueIps(requests)
    ensures OnePerIp(SpentReqs(requests, now))
  {
    hide Spent;
    forall a, b | a in SpentReqs(requests, now) && b in SpentReqs(requests, now) && a.ip == b.ip
      ensures a == b
    {
      var k :| 0 <= k < |requests| && requests[k] == a;
      OnlyOneFor(requests, k);
    }
  }

  lemma OrderConcat(rt: Router, entries: seq<Entry>, s: set<Request>, a: seq<Expiry>, t: set<Request>, b: seq<Expiry>)
    requires OnePerIp(s) && t == Keep(s, IpsOf(a))
    requires InOrder(rt, entries, s, a) && InOrder(rt, entries, t, b)
    requires forall e <- b :: Stuck(t, e.request.ip)
    ensures InOrder(rt, entries, s, a + b)
  {
    hide Sources, Settled;
    forall i, r, src | 0 <= i < |a + b| && r in s && r.ip == (a + b)[i].request.ip && src in Sources(r.packets)
      ensures Settled(rt, entries, s, r.ip, src, IpsOf((a + b)[..i]))
    {
      if i < |a| {
        assert (a + b)[..i] == a[..i];
      } else {
        var j := i - |a|;
        assert b[j] in b;
        assert r in t;
        assert Settled(rt, entries, t, r.ip, src, IpsOf(b[..j]));
        IpsConcat(a, b[..j]);
        assert (a + b)[..i] == a + b[..j];
        SettledEarlier(rt, entries, s, t, r.ip, src, IpsOf(a), IpsOf(b[..j]));
      }
    }
  }

  lemma IpsConcat(a: seq<Expiry>, b: seq<Expiry>)
    ensures IpsOf(a + b) == IpsOf(a) + IpsOf(b)
  {
    assert forall e :: e in a + b <==> e in a || e in b;
  }

  lemma SettledEarlier(rt: Router, entries: seq<Entry>, s: set<Request>, t: set<Request>, hop: Ip, src: Ip, gone: set<Ip>, more: set<Ip>)
    requires t == Keep(s, gone) && Settled(rt, entries, t, hop, src, more)
    ensures Settled(rt, entries, s, hop, src, gone + more)
  {
    hide Best, Lookup;
    if WaitsOn(rt, entries, src).Some? && Stuck(s, WaitsOn(rt, entries, src).value) && WaitsOn(rt, entries, src).value !in gone {
      var r :| r in s && r.ip == WaitsOn(rt, entries, src).value;
      assert r in t;
    }
    hide WaitsOn;
  }

  lemma MovedNews(st: State, after: State, now: int, allowed: set<Ip>)
    requires Moved(st, after, now, allowed)
    ensures Gone(st, after) == IpsOf(News(st, after))
    ensures SpentReqs(after.requests, now) == Keep(SpentReqs(st.requests, now), Gone(st, after))
    ensures forall e <- News(st, after) :: Stuck(SpentReqs(st.requests, now), e.request.ip)
    ensures Extends(st.log, after.log)
  {
    GoneIs(st, after);
    hide Gone, News, SpentReqs, Extends;
  }

  lemma {:induction false} AnswerAllOrder(rt: Router, st: State, hop: Ip, packets: seq<Packet>, now: int, walked: multiset<Packet>, spare: set<Ip>)
    requires rt.Valid() && InvWith(rt, st, walked)
    ensures var r, spent := AnswerAll(rt, st, hop, packets, now, spare), SpentReqs(st.requests, now);
            r.Some? ==>
              && InOrder(rt, st.entries, spent, News(st, r.value))
              && forall src <- Sources(packets) :: Settled(rt, st.entries, spent, hop, src, Gone(st, r.value))
    decreases |spare|, 2, |packets|
  {
    hide *;
    if packets == [] {
      NothingWalked(rt, st, hop, now, spare);
    } else {
      var front, last := packets[..|packets| - 1], packets[|packets| - 1];
      WalkSplits(rt, st, hop, packets, now, spare);
      if AnswerAll(rt, st, hop, packets, now, spare).Some? {
        var r := AnswerAll(rt, st, hop, packets, now, spare).value;
        var s := AnswerAll(rt, st, hop, front, now, spare).value;
        AnswerAllOrder(rt, st, hop, front, now, walked, spare);
        AnswerAllKeeps(rt, st, hop, front, now, walked, spare);
        AnswerOneOrder(rt, s, hop, last, now, walked + multiset(front), spare);
        AnswerOneKeeps(rt, s, hop, last, now, walked + multiset(front), spare);
        InvIsUnique(rt, st, walked);
        WalkOrder(rt, st, s, r, hop, front, last, now, spare);
        assert packets == front + [last];
      }
    }
  }

  lemma WalkSplits(rt: Router, st: State, hop: Ip, packets: seq<Packet>, now: int, spare: set<Ip>)
    requires rt.Valid() && packets != []
    ensures var r, s := AnswerAll(rt, st, hop, packets, now, spare), AnswerAll(rt, st, hop, packets[..|packets| - 1], now, spare);
            r.Some? ==> s.Some? && r == AnswerOne(rt, s.value, hop, packets[|packets| - 1], now, spare)
  {
    hide AnswerOne;
  }

  lemma NothingWalked(rt: Router, st: State, hop: Ip, now: int, spare: set<Ip>)
    requires rt.Valid()
    ensures AnswerAll(rt, st, hop, [], now, spare) == Some(st) && Sources([]) == {}
    ensures InOrder(rt, st.entries, SpentReqs(st.requests, now), News(st, st))
  {
    NoNews(rt, st, st.entries, SpentReqs(st.requests, now), st);
    hide InOrder, News;
  }

  lemma NoNews(rt: Router, st: State, entries: seq<Entry>, spent: set<Request>, after: State)
    requires after.log.expired == st.log.expired
    ensures News(st, after) == [] && InOrder(rt, entries, spent, News(st, after))
  {
  }

  lemma InvIsUnique(rt: Router, st: State, walked: multiset<Packet>)
    requires InvWith(rt, st, walked)
    ensures UniqueIps(st.requests)
  {
  }

  lemma WalkOrder(rt: Router, st: State, s: State, r: State, hop: Ip, front: seq<Packet>, last: Packet, now: int, spare: set<Ip>)
    requires UniqueIps(st.requests) && Moved(st, s, now, spare) && Moved(s, r, now, spare)
    requires InOrder(rt, st.entries, SpentReqs(st.requests, now), News(st, s))
    requires InOrder(rt, s.entries, SpentReqs(s.requests, now), News(s, r))
    requires forall src <- Sources(front) :: Settled(rt, st.entries, SpentReqs(st.requests, now), hop, src, Gone(st, s))
    requires Settled(rt, s.entries, SpentReqs(s.requests, now), hop, last.src, Gone(s, r))
    ensures InOrder(rt, st.entries, SpentReqs(st.requests, now), News(st, r))
    ensures forall src <- Sources(front + [last]) :: Settled(rt, st.entries, SpentReqs(st.requests, now), hop, src, Gone(st, r))
  {
    var spent := SpentReqs(st.requests, now);
    SpentAreUnique(st.requests, now);
    MovedNews(st, s, now, spare);
    MovedNews(s, r, now, spare);
    NewsSplit(st, s, r);
    SameEntries(st, s, now, spare);
    OrderConcat(rt, st.entries, spent, News(st, s), SpentReqs(s.requests, now), News(s, r));
    SettledEarlier(rt, st.entries, spent, SpentReqs(s.requests, now), hop, last.src, Gone(st, s), Gone(s, r));
    forall src | src in Sources(front + [last])
      ensures Settled(rt, st.entries, spent, hop, src, Gone(st, r))
    {
      if src != last.src {
        assert src in Sources(front);
      }
    }
    hide InOrder, SpentReqs, Moved, News, Gone;
  }

  lemma {:induction false} AnswerOneOrder(rt: Router, st: State, hop: Ip, p: Packet, now: int, walked: multiset<Packet>, spare: set<Ip>)
    requires rt.Valid() && InvWith(rt, st, walked)
    ensures var r, spent := AnswerOne(rt, st, hop, p, now, spare), SpentReqs(st.requests, now);
            r.Some? ==>
              && InOrder(rt, st.entries, spent, News(st, r.value))
              && Settled(rt, st.entries, spent, hop, p.src, Gone(st, r.value))
    decreases |spare|, 1, 0
  {
    hide InvWith, HandleNested, InOrder, News, Gone, SpentReqs, AnswerWaits, QueueReq;
    var r := AnswerOne(rt, st, hop, p, now, spare);
    if r.Some? {
      if WaitsOn(rt, st.entries, p.src).Some? {
        var gw, mid := WaitsOn(rt, st.entries, p.src).value, AnswerWaits(rt, st, hop, p);
        AnswerWaitsInv(rt, st, hop, p, now, walked);
        AnswerOneIs(rt, st, hop, p, now, spare);
        hide AnswerOne;
        NestedOrder(rt, mid, gw, now, walked + multiset{p}, spare);
        NestedKeeps(rt, mid, gw, now, walked + multiset{p}, spare);
        JoinNews(rt, st, hop, p, r.value);
        JoinOrder(rt, st, mid, hop, p, now, walked, News(mid, r.value));
      } else {
        NoNews(rt, st, st.entries, SpentReqs(st.requests, now), r.value);
      }
    }
  }

  /** Seen from before the answer was queued, the order is the same. */
  lemma JoinOrder(rt: Router, st: State, mid: State, hop: Ip, p: Packet, now: int, walked: multiset<Packet>, news: seq<Expiry>)
    requires rt.Valid() && InvWith(rt, st, walked) && Best(rt.table, hop).Some? && Best(rt.table, p.src).Some?
    requires mid == AnswerWaits(rt, st, hop, p)
    requires InOrder(rt, mid.entries, SpentReqs(mid.requests, now), news)
    ensures InOrder(rt, st.entries, SpentReqs(st.requests, now), news)
    ensures var gw := Best(rt.table, p.src).value.gw;
            Stuck(SpentReqs(mid.requests, now), gw) <==> Stuck(SpentReqs(st.requests, now), gw)
  {
    hide *;
    StillWaiting(rt, st, mid, hop, p, now, walked);
    OrderTransfers(rt, st.entries, SpentReqs(st.requests, now), SpentReqs(mid.requests, now), news);
  }

  /** Queuing the answer takes nothing off the spent requests. */
  lemma StillWaiting(rt: Router, st: State, mid: State, hop: Ip, p: Packet, now: int, walked: multiset<Packet>)
    requires rt.Valid() && InvWith(rt, st, walked) && Best(rt.table, hop).Some? && Best(rt.table, p.src).Some?
    requires mid == AnswerWaits(rt, st, hop, p)
    ensures forall r <- SpentReqs(st.requests, now) ::
              exists x <- SpentReqs(mid.requests, now) :: x.ip == r.ip && Sources(r.packets) <= Sources(x.packets)
    ensures forall ip :: Stuck(SpentReqs(st.requests, now), ip) <==> Stuck(SpentReqs(mid.requests, now), ip)
    ensures mid.entries == st.entries
  {
    var gw, icmp := Best(rt.table, p.src).value.gw, Icmp(rt, st.log, hop, p);
    var k := IndexOf(mid.requests, gw);
    assert mid.entries == st.entries && mid.requests == QueueReq(st.requests, gw, icmp);
    assert RequestsOk(rt, st.requests) && RoutedVia(rt, icmp, gw);
    hide *;
    AnswerWaitsInv(rt, st, hop, p, now, walked);
    JoinedIs(rt, st.requests, gw, icmp, now);
    InvIsUnique(rt, st, walked);
    SpentAreUnique(st.requests, now);
    FoundIsSpent(mid.requests, k, now);
    JoinKeepsWaiting(SpentReqs(st.requests, now), SpentReqs(mid.requests, now), gw, icmp, mid.requests[k]);
  }

  lemma FoundIsSpent(requests: seq<Request>, k: nat, now: int)
    requires k < |requests|
    ensures Spent(requests[k], now) ==> requests[k] in SpentReqs(requests, now)
  {
    assert requests[k] in requests;
  }

  /** The same, of the two sets of spent requests: one is longer by a packet. */
  lemma JoinKeepsWaiting(s: set<Request>, m: set<Request>, gw: Ip, icmp: Packet, joined: Request)
    requires OnePerIp(s) && Keep(m, {gw}) == Keep(s, {gw})
    requires if Stuck(s, gw) then joined in m && exists q <- s :: q.ip == gw && joined == q.(packets := [icmp] + q.packets) else m == s
    ensures forall r <- s :: exists x <- m :: x.ip == r.ip && Sources(r.packets) <= Sources(x.packets)
    ensures forall ip :: Stuck(s, ip) <==> Stuck(m, ip)
  {
    JoinSpent(s, m, {}, gw);
    forall r | r in s
      ensures exists x <- m :: x.ip == r.ip && Sources(r.packets) <= Sources(x.packets)
    {
      if r.ip == gw {
        assert Stuck(s, gw);
        SourcesPush(icmp, r.packets);
      } else {
        assert r in Keep(s, {gw});
        assert r in m;
      }
    }
  }

  lemma OrderTransfers(rt: Router, entries: seq<Entry>, s: set<Request>, m: set<Request>, news: seq<Expiry>)
    requires InOrder(rt, entries, m, news)
    requires forall r <- s :: exists x <- m :: x.ip == r.ip && Sources(r.packets) <= Sources(x.packets)
    requires forall ip :: Stuck(s, ip) <==> Stuck(m, ip)
    ensures InOrder(rt, entries, s, news)
  {
    hide Sources, WaitsOn, Routed, Stuck;
    forall i, r, src | 0 <= i < |news| && r in s && r.ip == news[i].request.ip && src in Sources(r.packets)
      ensures Settled(rt, entries, s, r.ip, src, IpsOf(news[..i]))
    {
      var x :| x in m && x.ip == r.ip && Sources(r.packets) <= Sources(x.packets);
      assert Settled(rt, entries, m, x.ip, src, IpsOf(news[..i]));
    }
  }

  lemma {:induction false} NestedOrder(rt: Router, st: State, ip: Ip, now: int, walked: multiset<Packet>, spare: set<Ip>)
    requires rt.Valid() && InvWith(rt, st, walked) && ip in IpSet(st.requests)
    ensures var r := HandleNested(rt, st, ip, now, spare);
            r.Some? ==> InOrder(rt, st.entries, SpentReqs(st.requests, now), News(st, r.value))
    decreases |spare|, 0, 0
  {
    OnlyOneAt(st.requests, ip);
    var k := IndexOf(st.requests, ip);
    var r := HandleNested(rt, st, ip, now, spare);
    hide InvWith, InOrder, News, SpentReqs, Expire;
    if r.Some? {
      if Spent(st.requests[k], now) {
        Smaller(spare, ip);
        ExpireOrder(rt, st, k, now, walked, spare - {ip});
      } else {
        NoNews(rt, st, st.entries, SpentReqs(st.requests, now), r.value);
      }
    }
  }

  lemma {:induction false} ExpireOrder(rt: Router, st: State, k: nat, now: int, walked: multiset<Packet>, spare: set<Ip>)
    requires rt.Valid() && InvWith(rt, st, walked) && k < |st.requests| && Spent(st.requests[k], now)
    ensures var r := st.requests[k]; var e := Expire(rt, st, r, now, spare);
            e.Some? ==> InOrder(rt, st.entries, SpentReqs(st.requests, now), News(st, e.value))
    decreases |spare|, 3, 0
  {
    var r := st.requests[k];
    var e := Expire(rt, st, r, now, spare);
    var s := AnswerAll(rt, st, r.ip, r.packets, now, spare);
    InvIsUnique(rt, st, walked);
    OnlyOneFor(st.requests, k);
    assert r in st.requests;
    hide InvWith, InOrder, News, Gone, AnswerAll, Unlink;
    if e.Some? {
      AnswerAllOrder(rt, st, r.ip, r.packets, now, walked, spare);
      AnswerAllKeeps(rt, st, r.ip, r.packets, now, walked, spare);
      MovedNews(st, s.value, now, spare);
      DestroyedNews(st, s.value, e.value, Expiry(r, now));
      LastInOrder(rt, st.entries, SpentReqs(st.requests, now), News(st, s.value), r, now);
    }
  }

  lemma LastInOrder(rt: Router, entries: seq<Entry>, s: set<Request>, news: seq<Expiry>, r: Request, now: int)
    requires InOrder(rt, entries, s, news) && forall x <- s :: x.ip == r.ip ==> x == r
    requires forall src <- Sources(r.packets) :: Settled(rt, entries, s, r.ip, src, IpsOf(news))
    ensures InOrder(rt, entries, s, news + [Expiry(r, now)])
  {
    hide Sources, Settled;
    var all := news + [Expiry(r, now)];
    forall i, x, src | 0 <= i < |all| && x in s && x.ip == all[i].request.ip && src in Sources(x.packets)
      ensures Settled(rt, entries, s, x.ip, src, IpsOf(all[..i]))
    {
      if i < |news| {
        assert all[..i] == news[..i];
      } else {
        assert all[..i] == news;
      }
    }
  }

  // ----- what cannot be put in order -------------------------------------------------------------

  lemma FirstAt(news: seq<Expiry>, ip: Ip) returns (i: nat)
    requires ip in IpsOf(news)
    ensures i < |news| && news[i].request.ip == ip && ip !in IpsOf(news[..i])
  {
    i := 0;
    while news[i].request.ip != ip
      invariant i < |news| && ip !in IpsOf(news[..i]) && ip in IpsOf(news[i..])
      decreases |news| - i
    {
      assert news[i..] == [news[i]] + news[i + 1..];
      assert news[..i + 1] == news[..i] + [news[i]];
      i := i + 1;
    }
  }

  /** What was expired had no answer that must fail: what its answers waited for was expired before it. */
  lemma {:induction false} OrderRefutes(rt: Router, entries: seq<Entry>, all: set<Request>, news: seq<Expiry>, i: nat,
                                        r: Request, spent: set<Request>, busy: set<Ip>)
    requires rt.Valid() && InOrder(rt, entries, all, news)
    requires i < |news| && r in all && r.ip == news[i].request.ip
    requires spent <= all && forall x <- busy :: Stuck(all, x) && x !in IpsOf(news[..i])
    ensures !Fails(rt, entries, spent, r.ip, Sources(r.packets), busy, false)
    decreases i, 1
  {
    hide Sources, Settled, SourceFails, Stuck, IpsOf;
    forall src | src in Sources(r.packets)
      ensures !SourceFails(rt, entries, spent, r.ip, src, busy, false)
    {
      SourceRefuted(rt, entries, all, news, i, r.ip, src, spent, busy);
    }
  }

  lemma {:induction false} SourceRefuted(rt: Router, entries: seq<Entry>, all: set<Request>, news: seq<Expiry>, i: nat,
                                         hop: Ip, src: Ip, spent: set<Request>, busy: set<Ip>)
    requires rt.Valid() && InOrder(rt, entries, all, news)
    requires i < |news| && Settled(rt, entries, all, hop, src, IpsOf(news[..i]))
    requires spent <= all && forall x <- busy :: Stuck(all, x) && x !in IpsOf(news[..i])
    ensures !SourceFails(rt, entries, spent, hop, src, busy, false)
    decreases i, 0
  {
    if SourceFails(rt, entries, spent, hop, src, busy, false) {
      var gw := WaitsOn(rt, entries, src).value;
      hide InOrder, Fails, Sources, Routed, WaitsOn, IpsOf;
      assert gw !in busy;
      var q :| q in spent && q.ip == gw && Fails(rt, entries, spent - {q}, gw, Sources(q.packets) + {}, busy + {gw}, false);
      assert Sources(q.packets) + {} == Sources(q.packets);
      var j := FirstAt(news[..i], gw);
      assert news[..i][..j] == news[..j];
      IpsLater(news, j, i);
      assert Stuck(all, gw);
      OrderRefutes(rt, entries, all, news, j, q, spent - {q}, busy + {gw});
    }
  }

  lemma IpsLater(news: seq<Expiry>, j: nat, i: nat)
    requires j <= i <= |news|
    ensures IpsOf(news[..j]) <= IpsOf(news[..i])
  {
    assert forall e :: e in news[..j] ==> e in news[..i];
  }
}
