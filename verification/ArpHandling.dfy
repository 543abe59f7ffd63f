/** When handling one request fails: conditions on the state before, and when they are exact. */
module ArpHandling {
  import opened Options
  import opened RoutingTable
  import opened ArpSpec
  import opened ArpInvariant
  import opened ArpExpiry
  import opened ArpFailure
  import opened ArpOrder

  // ----- one request -----------------------------------------------------------------------------

  /** Expiring `r` needs an answer that has no route, or that waits on `r` itself or on one of the `others`. */
  ghost predicate Needs(rt: Router, entries: seq<Entry>, spent: set<Request>, r: Request, others: set<Ip>, own: bool)
    requires rt.Valid()
  {
    Fails(rt, entries, spent - {r}, r.ip, Sources(r.packets), {r.ip} + others, own)
  }

  lemma HandleKeeps(rt: Router, st: State, ip: Ip, now: int)
    requires rt.Valid() && Inv(rt, st) && ip in IpSet(st.requests)
    ensures var h, spent := HandleReq(rt, st, ip, now), SpentReqs(st.requests, now);
            h.Some? ==>
              && Inv(rt, h.value) && Moved(st, h.value, now, SpentIps(st.requests, now))
              && ip !in DueIps(h.value.requests, now)
              && (Stuck(spent, ip) ==> ip in Gone(st, h.value))
  {
    NestedKeeps(rt, st, ip, now, multiset{}, SpentIps(st.requests, now));
    hide *;
    HandleIs(rt, st, ip, now);
    InvIs(rt, st);
  }

  lemma HandleIs(rt: Router, st: State, ip: Ip, now: int)
    requires rt.Valid()
    ensures HandleReq(rt, st, ip, now) == HandleNested(rt, st, ip, now, SpentIps(st.requests, now))
  {
    hide HandleNested;
  }

  lemma InvIs(rt: Router, st: State)
    ensures forall s: State :: Inv(rt, s) <==> InvWith(rt, s, multiset{})
  {
    hide InvWith;
  }

  /** A request that is not spent is handled without fail, and nothing is destroyed. */
  lemma UnspentSucceeds(rt: Router, st: State, ip: Ip, now: int)
    requires rt.Valid() && Inv(rt, st) && ip in IpSet(st.requests) && !Stuck(SpentReqs(st.requests, now), ip)
    ensures var h := HandleReq(rt, st, ip, now); h.Some? && Gone(st, h.value) == {}
  {
    NestedFails(rt, st, ip, now, SpentIps(st.requests, now), multiset{}, {});
    OnlyOneAt(st.requests, ip);
    assert st.requests[IndexOf(st.requests, ip)] in st.requests;
    HandleIs(rt, st, ip, now);
    hide InvWith, HandleNested, HandleReq, Spent, UniqueIps, RequestOk, Extends, IpSet;
    HandleKeeps(rt, st, ip, now);
    var h := HandleReq(rt, st, ip, now);
    assert Gone(st, h.value) <= SpentIps(st.requests, now);
    assert !Touched(st, h.value, {});
  }

  /**
   * The expiry of a spent request fails, or destroys one of the `others` on the way, only if its answers
   * need one of them; and it does if they need one even without the answers the router gives itself.
   */
  lemma HandleFails(rt: Router, st: State, r: Request, others: set<Ip>, now: int)
    requires rt.Valid() && Inv(rt, st) && r in SpentReqs(st.requests, now) && r.ip !in others
    requires forall x <- others :: Stuck(SpentReqs(st.requests, now), x)
    ensures var h, spent := HandleReq(rt, st, r.ip, now), SpentReqs(st.requests, now);
            && (Bad(st, h, others) ==> Needs(rt, st.entries, spent, r, others, true))
            && (Needs(rt, st.entries, spent, r, others, false) ==> Bad(st, h, others))
  {
    FailsIfNeeded(rt, st, r, others, now);
    if !Bad(st, HandleReq(rt, st, r.ip, now), others) {
      SucceedsUnneeded(rt, st, r, others, now);
    }
    hide *;
  }

  lemma FoundAt(requests: seq<Request>, r: Request, now: int)
    requires UniqueIps(requests) && r in SpentReqs(requests, now)
    ensures r.ip in IpSet(requests) && requests[IndexOf(requests, r.ip)] == r && Stuck(SpentReqs(requests, now), r.ip)
    ensures r.ip in SpentIps(requests, now)
    ensures forall x <- SpentReqs(requests, now) :: x.ip in SpentIps(requests, now) && (x.ip == r.ip ==> x == r)
  {
    OnlyOneAt(requests, r.ip);
    SpentIpsOf(requests, now);
    SpentAreUnique(requests, now);
    hide Spent, SpentIps, UniqueIps;
  }

  lemma FailsIfNeeded(rt: Router, st: State, r: Request, others: set<Ip>, now: int)
    requires rt.Valid() && Inv(rt, st) && r in SpentReqs(st.requests, now) && r.ip !in others
    ensures Bad(st, HandleReq(rt, st, r.ip, now), others)
        ==> Needs(rt, st.entries, SpentReqs(st.requests, now), r, others, true)
  {
    var spent, spare := SpentReqs(st.requests, now), SpentIps(st.requests, now);
    InvIsUnique(rt, st, multiset{});
    FoundAt(st.requests, r, now);
    NestedFails(rt, st, r.ip, now, spare, multiset{}, others);
    HandleIs(rt, st, r.ip, now);
    assert Covered(st.requests, now, spare - {r.ip}, spent - {r}, {r.ip} + others) by { hide SpentReqs, SpentIps, UniqueIps, InvWith; }
    AnswerAllFails(rt, st, r.ip, r.packets, now, multiset{}, spare - {r.ip}, spent - {r}, {r.ip} + others);
    assert {r.ip} + others == others + {r.ip};
    hide InvWith, SpentReqs, SpentIps, HandleNested, HandleReq, AnswerAll, Fails, Sources, IpSet, UniqueIps, Spent, Bad;
  }

  /** A call that comes to its end without touching the `others` did not need them. */
  lemma SucceedsUnneeded(rt: Router, st: State, r: Request, others: set<Ip>, now: int)
    requires rt.Valid() && Inv(rt, st) && r in SpentReqs(st.requests, now) && r.ip !in others
    requires forall x <- others :: Stuck(SpentReqs(st.requests, now), x)
    requires !Bad(st, HandleReq(rt, st, r.ip, now), others)
    ensures !Needs(rt, st.entries, SpentReqs(st.requests, now), r, others, false)
  {
    var spent, spare := SpentReqs(st.requests, now), SpentIps(st.requests, now);
    var after := HandleReq(rt, st, r.ip, now).value;
    InvIsUnique(rt, st, multiset{});
    FoundAt(st.requests, r, now);
    NestedOrder(rt, st, r.ip, now, multiset{}, spare);
    HandleKeeps(rt, st, r.ip, now);
    HandleIs(rt, st, r.ip, now);
    MovedNews(st, after, now, spare);
    hide InvWith, SpentReqs, SpentIps, HandleNested, HandleReq, Fails, Sources, IpSet, UniqueIps, Spent, InOrder, News, Gone, Moved, Extends, IpsOf;
    var i := FirstAt(News(st, after), r.ip);
    IpsLater(News(st, after), i, |News(st, after)|);
    assert News(st, after)[..|News(st, after)|] == News(st, after);
    OrderRefutes(rt, st.entries, spent, News(st, after), i, r, spent - {r}, {r.ip} + others);
  }

  // ----- the router's own answers ----------------------------------------------------------------

  /** An answer to any of the router's own addresses could be sent, or would wait on an unspent request. */
  ghost predicate Quiet(rt: Router, entries: seq<Entry>, spent: set<Request>)
    requires rt.Valid()
  {
    forall hop | Best(rt.table, hop).Some? ::
      var own := OwnAddress(rt, hop);
      Best(rt.table, own).Some? && (WaitsOn(rt, entries, own).Some? ==> !Stuck(spent, WaitsOn(rt, entries, own).value))
  }

  /** None of the router's own addresses has a route. */
  ghost predicate Lost(rt: Router)
    requires rt.Valid()
  {
    forall hop | Best(rt.table, hop).Some? :: Best(rt.table, OwnAddress(rt, hop)).None?
  }

  /** In either case the order in which the answers are tried does not matter. */
  ghost predicate Regular(rt: Router, entries: seq<Entry>, spent: set<Request>, own: bool)
    requires rt.Valid()
  {
    if own then Lost(rt) else Quiet(rt, entries, spent)
  }

  ghost predicate HavePackets(spent: set<Request>) {
    forall r <- spent :: r.packets != []
  }

  lemma {:induction false} QuietFails(rt: Router, entries: seq<Entry>, all: set<Request>, spent: set<Request>, hop: Ip, srcs: set<Ip>, busy: set<Ip>)
    requires rt.Valid() && Quiet(rt, entries, all) && HavePackets(all)
    requires spent <= all && forall x <- busy :: Stuck(all, x)
    ensures Fails(rt, entries, spent, hop, srcs, busy, true) ==> Fails(rt, entries, spent, hop, srcs, busy, false)
    decreases |spent|, 1
  {
    hide Quiet, SourceFails, Stuck;
    if src :| src in srcs && SourceFails(rt, entries, spent, hop, src, busy, true) {
      QuietSource(rt, entries, all, spent, hop, src, busy);
    }
  }

  lemma {:induction false} QuietSource(rt: Router, entries: seq<Entry>, all: set<Request>, spent: set<Request>, hop: Ip, src: Ip, busy: set<Ip>)
    requires rt.Valid() && Quiet(rt, entries, all) && HavePackets(all)
    requires spent <= all && forall x <- busy :: Stuck(all, x)
    requires SourceFails(rt, entries, spent, hop, src, busy, true)
    ensures SourceFails(rt, entries, spent, hop, src, busy, false)
    decreases |spent|, 0
  {
    hide Quiet, Fails, Sources, WaitsOn, OwnAddress;
    if Routed(rt, hop, src) && WaitsOn(rt, entries, src).value !in busy {
      var gw, own := WaitsOn(rt, entries, src).value, OwnAddress(rt, hop);
      var q :| q in spent && q.ip == gw && Fails(rt, entries, spent - {q}, gw, Sources(q.packets) + {own}, busy + {gw}, true);
      Fewer(spent, q);
      assert Stuck(all, gw);
      OwnAside(rt, entries, all, spent - {q}, hop, q, busy + {gw});
      QuietFails(rt, entries, all, spent - {q}, gw, Sources(q.packets), busy + {gw});
      assert Sources(q.packets) + {} == Sources(q.packets);
    }
  }

  /** The router's own address adds no failure that the other packets do not have. */
  lemma OwnAside(rt: Router, entries: seq<Entry>, all: set<Request>, spent: set<Request>, hop: Ip, q: Request, busy: set<Ip>)
    requires rt.Valid() && Quiet(rt, entries, all) && q.packets != [] && Best(rt.table, hop).Some?
    requires spent <= all && forall x <- busy :: Stuck(all, x)
    requires Fails(rt, entries, spent, q.ip, Sources(q.packets) + {OwnAddress(rt, hop)}, busy, true)
    ensures Fails(rt, entries, spent, q.ip, Sources(q.packets), busy, true)
  {
    var own, srcs := OwnAddress(rt, hop), Sources(q.packets);
    assert q.packets[0].src in srcs;
    hide OwnAddress, WaitsOn, Best, Sources;
    var src :| src in srcs + {own} && SourceFails(rt, entries, spent, q.ip, src, busy, true);
    if src == own {
      assert Best(rt.table, own).Some?;
      assert WaitsOn(rt, entries, own).Some? ==> !Stuck(all, WaitsOn(rt, entries, own).value);
      assert !Routed(rt, q.ip, own);
      assert SourceFails(rt, entries, spent, q.ip, q.packets[0].src, busy, true);
    }
  }

  // ----- without routes to the router itself -----------------------------------------------------

  /** No expiry can start from another: the first answer it gives is to the router itself. */
  lemma LostNested(rt: Router, st: State, hop: Ip, p: Packet, now: int, walked: multiset<Packet>, spare: set<Ip>)
    requires rt.Valid() && InvWith(rt, st, walked) && Lost(rt)
    requires Best(rt.table, hop).Some? && Best(rt.table, p.src).Some?
    ensures var mid, gw := AnswerWaits(rt, st, hop, p), Best(rt.table, p.src).value.gw;
            var h := HandleNested(rt, mid, gw, now, spare);
            h.Some? ==> Gone(mid, h.value) == {}
  {
    var mid, gw := AnswerWaits(rt, st, hop, p), Best(rt.table, p.src).value.gw;
    var icmp := Icmp(rt, st.log, hop, p);
    assert mid.requests == QueueReq(st.requests, gw, icmp);
    assert Best(rt.table, OwnAddress(rt, hop)).None?;
    hide *;
    AnswerWaitsInv(rt, st, hop, p, now, walked);
    QueuedAt(st.requests, gw, icmp);
    IcmpSource(rt, st.log, hop, p);
    LostAnswer(rt, mid, gw, now, walked + multiset{p}, spare);
  }

  /** A walk over a request whose newest packet comes from an address without a route does not succeed. */
  lemma LostAnswer(rt: Router, st: State, ip: Ip, now: int, walked: multiset<Packet>, spare: set<Ip>)
    requires rt.Valid() && InvWith(rt, st, walked) && ip in IpSet(st.requests)
    requires var k := IndexOf(st.requests, ip);
             k < |st.requests| && st.requests[k].packets != [] && Best(rt.table, st.requests[k].packets[0].src).None?
    ensures var h := HandleNested(rt, st, ip, now, spare); h.Some? ==> Gone(st, h.value) == {}
  {
    hide *;
    var packets := st.requests[IndexOf(st.requests, ip)].packets;
    NestedGone(rt, st, ip, now, walked, spare);
    AnswerAllOrder(rt, st, ip, packets, now, walked, spare - {ip});
    SourceOf(packets, 0);
    SettledRouted(rt, st.entries, SpentReqs(st.requests, now), ip, packets[0].src);
  }

  lemma SourceOf(packets: seq<Packet>, i: nat)
    requires i < |packets|
    ensures packets[i].src in Sources(packets)
  {
  }

  lemma SettledRouted(rt: Router, entries: seq<Entry>, spent: set<Request>, hop: Ip, src: Ip)
    ensures forall gone :: Settled(rt, entries, spent, hop, src, gone) ==> Best(rt.table, src).Some?
  {
  }

  lemma NestedGone(rt: Router, st: State, ip: Ip, now: int, walked: multiset<Packet>, spare: set<Ip>)
    requires rt.Valid() && InvWith(rt, st, walked) && ip in IpSet(st.requests)
    ensures var h, q := HandleNested(rt, st, ip, now, spare), st.requests[IndexOf(st.requests, ip)];
            h.Some? && Gone(st, h.value) != {} ==>
              Spent(q, now) && ip in spare && AnswerAll(rt, st, ip, q.packets, now, spare - {ip}).Some?
  {
    OnlyOneAt(st.requests, ip);
    var k := IndexOf(st.requests, ip);
    var q := st.requests[k];
    hide LogOk, EntriesOk, Balanced, RequestOk, SendQuery, AnswerAll, Gone;
    if !Due(q, now) {
      Untouched(st, st, {});
    } else if q.timesSent < MAX_SENDS {
      SendQueryEffect(rt, st, k, now, walked);
      Untouched(st, SendQuery(rt, st, k, now).value, {});
    }
  }

  lemma {:induction false} LostWalk(rt: Router, st: State, hop: Ip, packets: seq<Packet>, now: int, walked: multiset<Packet>, spare: set<Ip>)
    requires rt.Valid() && InvWith(rt, st, walked) && Lost(rt)
    ensures var r := AnswerAll(rt, st, hop, packets, now, spare); r.Some? ==> Gone(st, r.value) == {}
  {
    hide *;
    if packets == [] {
      NothingWalked(rt, st, hop, now, spare);
      Untouched(st, st, {});
    } else {
      var front, last := packets[..|packets| - 1], packets[|packets| - 1];
      WalkSplits(rt, st, hop, packets, now, spare);
      if AnswerAll(rt, st, hop, packets, now, spare).Some? {
        var r := AnswerAll(rt, st, hop, packets, now, spare).value;
        var s := AnswerAll(rt, st, hop, front, now, spare).value;
        LostWalk(rt, st, hop, front, now, walked, spare);
        AnswerAllKeeps(rt, st, hop, front, now, walked, spare);
        LostOne(rt, s, hop, last, now, walked + multiset(front), spare);
        AnswerOneKeeps(rt, s, hop, last, now, walked + multiset(front), spare);
        MovedExtends(st, s, now, spare);
        MovedExtends(s, r, now, spare);
        NewsSplit(st, s, r);
      }
    }
  }

  lemma LostOne(rt: Router, st: State, hop: Ip, p: Packet, now: int, walked: multiset<Packet>, spare: set<Ip>)
    requires rt.Valid() && InvWith(rt, st, walked) && Lost(rt)
    ensures var r := AnswerOne(rt, st, hop, p, now, spare); r.Some? ==> Gone(st, r.value) == {}
  {
    var r := AnswerOne(rt, st, hop, p, now, spare);
    if r.Some? {
      if WaitsOn(rt, st.entries, p.src).Some? {
        AnswerOneIs(rt, st, hop, p, now, spare);
        LostNested(rt, st, hop, p, now, walked, spare);
        JoinNews(rt, st, hop, p, r.value);
      } else {
        Untouched(st, r.value, {});
      }
    }
    hide InvWith, Lost, HandleNested, AnswerWaits, Gone, News, QueueReq;
  }

  /** Then an expiry that succeeds has not waited on any spent request. */
  lemma LostSucceeds(rt: Router, st: State, r: Request, others: set<Ip>, now: int)
    requires rt.Valid() && Inv(rt, st) && Lost(rt) && r in SpentReqs(st.requests, now) && r.ip !in others
    requires forall x <- others :: Stuck(SpentReqs(st.requests, now), x)
    requires HandleReq(rt, st, r.ip, now).Some?
    ensures !Needs(rt, st.entries, SpentReqs(st.requests, now), r, others, true)
  {
    var spent, spare := SpentReqs(st.requests, now), SpentIps(st.requests, now);
    InvIsUnique(rt, st, multiset{});
    FoundAt(st.requests, r, now);
    HandleIs(rt, st, r.ip, now);
    assert AnswerAll(rt, st, r.ip, r.packets, now, spare - {r.ip}).Some? by { hide AnswerAll, InvWith, SpentReqs; assert Spent(r, now); }
    LostWalk(rt, st, r.ip, r.packets, now, multiset{}, spare - {r.ip});
    AnswerAllOrder(rt, st, r.ip, r.packets, now, multiset{}, spare - {r.ip});
    hide *;
    UnneededWhenSettled(rt, st.entries, spent, r, others);
  }

  lemma UnneededWhenSettled(rt: Router, entries: seq<Entry>, spent: set<Request>, r: Request, others: set<Ip>)
    requires rt.Valid() && r in spent && forall x <- others :: Stuck(spent, x)
    requires forall src <- Sources(r.packets) :: Settled(rt, entries, spent, r.ip, src, {})
    ensures !Needs(rt, entries, spent, r, others, true)
  {
    hide Sources, WaitsOn, Routed;
    forall src | src in Sources(r.packets)
      ensures !SourceFails(rt, entries, spent - {r}, r.ip, src, {r.ip} + others, true)
    {
      assert Settled(rt, entries, spent, r.ip, src, {});
    }
    hide SourceFails;
  }

  // ----- exactly when ----------------------------------------------------------------------------

  /** With regular routes to the router itself, the condition is exact. */
  lemma HandleFailsExactly(rt: Router, st: State, r: Request, others: set<Ip>, now: int, own: bool)
    requires rt.Valid() && Inv(rt, st) && r in SpentReqs(st.requests, now) && r.ip !in others
    requires forall x <- others :: Stuck(SpentReqs(st.requests, now), x)
    requires Regular(rt, st.entries, SpentReqs(st.requests, now), own)
    ensures Bad(st, HandleReq(rt, st, r.ip, now), others)
       <==> Needs(rt, st.entries, SpentReqs(st.requests, now), r, others, own)
  {
    var spent := SpentReqs(st.requests, now);
    SpentHavePackets(rt, st, now);
    hide InvWith, HandleReq, SpentReqs, Quiet, Lost, Bad, Fails, Sources;
    HandleFails(rt, st, r, others, now);
    if own {
      if HandleReq(rt, st, r.ip, now).Some? {
        LostSucceeds(rt, st, r, others, now);
      } else {
        NoneIsBad(st, others);
      }
    } else {
      assert Stuck(spent, r.ip);
      QuietFails(rt, st.entries, spent, spent - {r}, r.ip, Sources(r.packets), {r.ip} + others);
    }
  }

  lemma NoneIsBad(st: State, ips: set<Ip>)
    ensures Bad(st, None, ips)
  {
  }

  lemma SpentHavePackets(rt: Router, st: State, now: int)
    requires Inv(rt, st)
    ensures HavePackets(SpentReqs(st.requests, now))
  {
    forall r | r in SpentReqs(st.requests, now)
      ensures r.packets != []
    {
      assert RequestOk(rt, r);
    }
  }
}
