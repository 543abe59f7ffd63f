/**
 * When handling fails, whatever the routes: the order in which the waiting packets are answered is that of
 * the lists, so the call can be followed on the spent requests alone, by the addresses of their packets.
 */
module ArpWalk {
  import opened Options
  import opened RoutingTable
  import opened ArpSpec
  import opened ArpInvariant
  import opened ArpExpiry
  import opened ArpFailure
  import opened ArpOrder
  import opened ArpHandling
  import opened ArpSweep

  // ----- the walk ------------------------------------------------------------------------------------

  function SourcesOf(packets: seq<Packet>): (srcs: seq<Ip>)
    ensures |srcs| == |packets|
  {
    if packets == [] then [] else SourcesOf(packets[..|packets| - 1]) + [packets[|packets| - 1].src]
  }

  ghost function At(left: set<Request>, ip: Ip): (q: Request)
    requires Stuck(left, ip)
    ensures q in left && q.ip == ip
  {
    var q :| q in left && q.ip == ip; q
  }

  /**
   * Packets from `srcs`, which wait on `hop`, are answered one after the other. `left` holds the spent
   * requests that no expiry has started from, `busy` the addresses of those under way; the result is what
   * is left at the end, None where an answer cannot be sent.
   */
  ghost function WalkAll(rt: Router, entries: seq<Entry>, left: set<Request>, hop: Ip, srcs: seq<Ip>, busy: set<Ip>): (r: Option<set<Request>>)
    requires rt.Valid()
    ensures r.Some? ==> r.value <= left
    decreases |left|, 1, |srcs|
  {
    if srcs == [] then Some(left)
    else
      var front := WalkAll(rt, entries, left, hop, srcs[..|srcs| - 1], busy);
      if front.None? then None
      else
        NotMore(front.value, left);
        WalkOne(rt, entries, front.value, hop, srcs[|srcs| - 1], busy)
  }

  /** One answer: it needs two routes, and if it waits on a spent request that one is expired first. The
      answer itself is then the first packet to be answered there. */
  ghost function WalkOne(rt: Router, entries: seq<Entry>, left: set<Request>, hop: Ip, src: Ip, busy: set<Ip>): (r: Option<set<Request>>)
    requires rt.Valid()
    ensures r.Some? ==> r.value <= left
    decreases |left|, 0, 0
  {
    if !Routed(rt, hop, src) then None
    else
      var gw := WaitsOn(rt, entries, src);
      if gw.None? then Some(left)
      else if gw.value in busy then None
      else if Stuck(left, gw.value) then
        var q := At(left, gw.value);
        Fewer(left, q);
        WalkAll(rt, entries, left - {q}, q.ip, [OwnAddress(rt, hop)] + SourcesOf(q.packets), busy + {q.ip})
      else Some(left)
  }

  lemma NotMore(a: set<Request>, b: set<Request>)
    requires a <= b
    ensures |a| <= |b|
  {
    assert a + (b - a) == b;
  }

  // ----- the code follows the walk -------------------------------------------------------------------

  /** `left` and `busy` divide the spent requests, and only those in `left` may be expired. */
  ghost predicate Divided(requests: seq<Request>, now: int, left: set<Request>, busy: set<Ip>, spare: set<Ip>) {
    && left == Keep(SpentReqs(requests, now), busy)
    && (forall q <- left :: q.ip in spare)
    && (forall ip <- busy :: ip !in spare && Stuck(SpentReqs(requests, now), ip))
  }

  lemma DividedLater(st: State, after: State, now: int, left: set<Request>, busy: set<Ip>, spare: set<Ip>)
    requires Moved(st, after, now, spare) && Divided(st.requests, now, left, busy, spare)
    ensures var rest := Keep(left, Gone(st, after));
            Divided(after.requests, now, rest, busy, spare) && rest == Keep(SpentReqs(after.requests, now), busy)
  {
    hide SpentReqs, Gone, Extends, SpentIps, IpSet, DueIps, News;
    var before, later := SpentReqs(st.requests, now), SpentReqs(after.requests, now);
    assert Keep(left, Gone(st, after)) == Keep(later, busy);
    forall ip | ip in busy
      ensures Stuck(later, ip)
    {
      var r :| r in before && r.ip == ip;
      assert r in later;
    }
  }

  /** What the code leaves is what the walk leaves. */
  ghost predicate Follows(after: Option<State>, walk: Option<set<Request>>, now: int, busy: set<Ip>) {
    && (after.None? <==> walk.None?)
    && (after.Some? ==> walk.value == Keep(SpentReqs(after.value.requests, now), busy))
  }

  lemma {:induction false} AllFollows(rt: Router, st: State, hop: Ip, packets: seq<Packet>, now: int, walked: multiset<Packet>,
                                      left: set<Request>, busy: set<Ip>, spare: set<Ip>)
    requires rt.Valid() && InvWith(rt, st, walked) && Divided(st.requests, now, left, busy, spare)
    ensures Follows(AnswerAll(rt, st, hop, packets, now, spare), WalkAll(rt, st.entries, left, hop, SourcesOf(packets), busy), now, busy)
    decreases |spare|, 2, |packets|
  {
    hide InvWith, AnswerOne, WalkOne, SpentReqs, Gone, Moved, Divided;
    if packets == [] {
      DividedIs(st.requests, now, left, busy, spare);
    } else {
      var front, last := packets[..|packets| - 1], packets[|packets| - 1];
      assert SourcesOf(packets) == SourcesOf(front) + [last.src];
      assert SourcesOf(packets)[..|packets| - 1] == SourcesOf(front);
      AllFollows(rt, st, hop, front, now, walked, left, busy, spare);
      var s := AnswerAll(rt, st, hop, front, now, spare);
      if s.Some? {
        AnswerAllKeeps(rt, st, hop, front, now, walked, spare);
        DividedLater(st, s.value, now, left, busy, spare);
        SameEntries(st, s.value, now, spare);
        OneFollows(rt, s.value, hop, last, now, walked + multiset(front), Keep(left, Gone(st, s.value)), busy, spare);
      }
    }
  }

  lemma DividedIs(requests: seq<Request>, now: int, left: set<Request>, busy: set<Ip>, spare: set<Ip>)
    requires Divided(requests, now, left, busy, spare)
    ensures left == Keep(SpentReqs(requests, now), busy)
  {
    hide SpentReqs;
  }

  lemma {:induction false} NestedFollows(rt: Router, st: State, ip: Ip, now: int, walked: multiset<Packet>,
                                         left: set<Request>, busy: set<Ip>, spare: set<Ip>)
    requires rt.Valid() && InvWith(rt, st, walked) && ip in IpSet(st.requests)
    requires Divided(st.requests, now, left, busy, spare)
    ensures var h, q := HandleNested(rt, st, ip, now, spare), st.requests[IndexOf(st.requests, ip)];
            if !Spent(q, now) then Follows(h, Some(left), now, busy)
            else if ip in busy then h.None?
            else Follows(h, WalkAll(rt, st.entries, left - {q}, ip, SourcesOf(q.packets), busy + {ip}), now, busy)
    decreases |spare|, 0, 0
  {
    OnlyOneAt(st.requests, ip);
    var k := IndexOf(st.requests, ip);
    var q := st.requests[k];
    DividedIs(st.requests, now, left, busy, spare);
    if !Spent(q, now) {
      NestedFails(rt, st, ip, now, spare, walked, {});
      NestedGone(rt, st, ip, now, walked, spare);
      NestedKeeps(rt, st, ip, now, walked, spare);
      hide InvWith, HandleNested, SpentReqs, Divided, IpSet, Spent, WalkAll;
      UnspentFollows(st, HandleNested(rt, st, ip, now, spare), now, spare, left, busy);
    } else if ip !in busy {
      TakenOut(rt, st, k, now, walked, left, busy, spare);
      Smaller(spare, ip);
      AllFollows(rt, st, ip, q.packets, now, walked, left - {q}, busy + {ip}, spare - {ip});
      hide InvWith, SpentReqs, Divided, WalkAll, AnswerAll;
      ExpireFollows(rt, st, k, now, walked, busy, spare - {ip});
    } else {
      hide InvWith, SpentReqs, WalkAll, Expire;
    }
  }

  lemma UnspentFollows(st: State, h: Option<State>, now: int, spare: set<Ip>, left: set<Request>, busy: set<Ip>)
    requires h.Some? && Moved(st, h.value, now, spare) && Gone(st, h.value) == {}
    requires left == Keep(SpentReqs(st.requests, now), busy)
    ensures Follows(h, Some(left), now, busy)
  {
    hide SpentReqs, Extends;
    assert Keep(SpentReqs(st.requests, now), {}) == SpentReqs(st.requests, now);
  }

  /** The request under expiry joins the busy ones. */
  lemma TakenOut(rt: Router, st: State, k: nat, now: int, walked: multiset<Packet>, left: set<Request>, busy: set<Ip>, spare: set<Ip>)
    requires InvWith(rt, st, walked) && k < |st.requests| && Spent(st.requests[k], now) && st.requests[k].ip !in busy
    requires Divided(st.requests, now, left, busy, spare)
    ensures var q := st.requests[k];
            q in left && q.ip in spare && Divided(st.requests, now, left - {q}, busy + {q.ip}, spare - {q.ip})
  {
    var q, spent := st.requests[k], SpentReqs(st.requests, now);
    InvIsUnique(rt, st, walked);
    SpentAreUnique(st.requests, now);
    FoundIsSpent(st.requests, k, now);
    hide InvWith, SpentReqs, Spent, UniqueIps;
    assert Stuck(spent, q.ip);
    assert left - {q} == Keep(spent, busy + {q.ip});
  }

  /** After the walk the request is destroyed. */
  lemma ExpireFollows(rt: Router, st: State, k: nat, now: int, walked: multiset<Packet>, busy: set<Ip>, spare: set<Ip>)
    requires rt.Valid() && InvWith(rt, st, walked) && k < |st.requests| && Spent(st.requests[k], now) && st.requests[k].ip !in spare
    ensures var q := st.requests[k];
            var e, s := Expire(rt, st, q, now, spare), AnswerAll(rt, st, q.ip, q.packets, now, spare);
            && (e.None? <==> s.None?)
            && (e.Some? ==> Keep(SpentReqs(e.value.requests, now), busy) == Keep(SpentReqs(s.value.requests, now), busy + {q.ip}))
  {
    hide InvWith, AnswerAll, SpentReqs, Moved, Gone, News, Extends, Spent, Unlink;
    var q := st.requests[k];
    var e, s := Expire(rt, st, q, now, spare), AnswerAll(rt, st, q.ip, q.packets, now, spare);
    if s.Some? {
      AnswerAllKeeps(rt, st, q.ip, q.packets, now, walked, spare);
      ExpireKeeps(rt, st, k, now, walked, spare);
      hide *;
      MovedExtends(st, s.value, now, spare);
      ExpireIs(rt, st, q, now, spare);
      DestroyedNews(st, s.value, e.value, Expiry(q, now));
      MovedNews(st, s.value, now, spare);
      MovedNews(st, e.value, now, spare + {q.ip});
      KeepAlso(SpentReqs(st.requests, now), Gone(st, s.value), q.ip, busy);
    }
  }

  lemma ExpireIs(rt: Router, st: State, q: Request, now: int, spare: set<Ip>)
    requires rt.Valid()
    ensures var e, s := Expire(rt, st, q, now, spare), AnswerAll(rt, st, q.ip, q.packets, now, spare);
            e.None? == s.None? && (s.Some? ==> e.value.log == s.value.log.(expired := s.value.log.expired + [Expiry(q, now)]))
  {
    hide AnswerAll, Unlink;
  }

  lemma KeepAlso(spent: set<Request>, gone: set<Ip>, ip: Ip, busy: set<Ip>)
    ensures Keep(Keep(spent, gone + {ip}), busy) == Keep(Keep(spent, gone), busy + {ip})
  {
  }

  lemma {:induction false} OneFollows(rt: Router, st: State, hop: Ip, p: Packet, now: int, walked: multiset<Packet>,
                                      left: set<Request>, busy: set<Ip>, spare: set<Ip>)
    requires rt.Valid() && InvWith(rt, st, walked) && Divided(st.requests, now, left, busy, spare)
    ensures Follows(AnswerOne(rt, st, hop, p, now, spare), WalkOne(rt, st.entries, left, hop, p.src, busy), now, busy)
    decreases |spare|, 1, 0
  {
    hide InvWith, SpentReqs, HandleNested, WalkAll, Divided, QueueReq;
    DividedIs(st.requests, now, left, busy, spare);
    if Routed(rt, hop, p.src) && WaitsOn(rt, st.entries, p.src).Some? {
      AnswerOneIs(rt, st, hop, p, now, spare);
      hide AnswerOne;
      JoinedFollows(rt, st, hop, p, now, walked, left, busy, spare);
    }
  }

  lemma SourcesOfPush(p: Packet, packets: seq<Packet>)
    ensures SourcesOf([p] + packets) == [p.src] + SourcesOf(packets)
  {
    if packets == [] {
      assert [p] + packets == [p] && SourcesOf([p][..0]) == [];
    } else {
      var front := packets[..|packets| - 1];
      assert ([p] + packets)[..|packets|] == [p] + front;
      SourcesOfPush(p, front);
    }
  }

  lemma WalkOneIs(rt: Router, entries: seq<Entry>, left: set<Request>, hop: Ip, src: Ip, busy: set<Ip>)
    requires rt.Valid() && Routed(rt, hop, src) && WaitsOn(rt, entries, src).Some?
    ensures var gw, w := WaitsOn(rt, entries, src).value, WalkOne(rt, entries, left, hop, src, busy);
            && (gw in busy ==> w.None?)
            && (gw !in busy && !Stuck(left, gw) ==> w == Some(left))
            && (gw !in busy && Stuck(left, gw) ==>
                  var q := At(left, gw);
                  w == WalkAll(rt, entries, left - {q}, gw, [OwnAddress(rt, hop)] + SourcesOf(q.packets), busy + {gw}))
  {
    hide WalkAll, Routed, WaitsOn, OwnAddress, Stuck;
  }

  /** The spent request that the answer has joined is the one of before, with the answer in front. */
  lemma DividedMid(requests: seq<Request>, after: seq<Request>, gw: Ip, icmp: Packet, joined: Request, now: int,
                   left: set<Request>, busy: set<Ip>, spare: set<Ip>)
    requires OnePerIp(SpentReqs(requests, now)) && Divided(requests, now, left, busy, spare)
    requires joined.ip == gw && (Spent(joined, now) <==> joined in SpentReqs(after, now))
    requires Keep(SpentReqs(after, now), {gw}) == Keep(SpentReqs(requests, now), {gw})
    requires !Stuck(SpentReqs(requests, now), gw) ==> SpentReqs(after, now) == SpentReqs(requests, now)
    requires forall x <- SpentReqs(after, now) :: x.ip == gw ==> x == joined
    requires if Spent(joined, now) then exists q <- SpentReqs(requests, now) :: q.ip == gw && joined == q.(packets := [icmp] + q.packets)
             else !Stuck(SpentReqs(requests, now), gw)
    ensures var left' := Keep(SpentReqs(after, now), busy);
            && Divided(after, now, left', busy, spare)
            && (!Spent(joined, now) ==> gw !in busy && !Stuck(left, gw) && left' == left)
            && (Spent(joined, now) && gw !in busy ==>
                  Stuck(left, gw) && joined.packets == [icmp] + At(left, gw).packets && left' - {joined} == left - {At(left, gw)})
  {
    var s, m := SpentReqs(requests, now), SpentReqs(after, now);
    hide SpentReqs, Spent;
    JoinSpent(s, m, {}, gw);
    var left' := Keep(m, busy);
    assert forall r: Request :: r.ip != gw ==> (r in s <==> r in Keep(s, {gw})) && (r in m <==> r in Keep(m, {gw}));
    if Spent(joined, now) {
      var q :| q in s && q.ip == gw && joined == q.(packets := [icmp] + q.packets);
      assert Stuck(m, gw);
      if gw !in busy {
        assert q in left && At(left, gw) in s && At(left, gw) == q;
        assert left' - {joined} == left - {q};
      }
    }
  }

  lemma JoinDivides(rt: Router, st: State, mid: State, gw: Ip, icmp: Packet, now: int, left: set<Request>, busy: set<Ip>, spare: set<Ip>)
    requires rt.Valid() && RequestsOk(rt, st.requests) && RoutedVia(rt, icmp, gw)
    requires mid.requests == QueueReq(st.requests, gw, icmp) && UniqueIps(mid.requests)
    requires Keep(SpentReqs(mid.requests, now), {gw}) == Keep(SpentReqs(st.requests, now), {gw})
    requires !Stuck(SpentReqs(st.requests, now), gw) ==> SpentReqs(mid.requests, now) == SpentReqs(st.requests, now)
    requires Divided(st.requests, now, left, busy, spare)
    ensures var k := IndexOf(mid.requests, gw);
            k < |mid.requests| && mid.requests[k].ip == gw
    ensures var joined, left' := mid.requests[IndexOf(mid.requests, gw)], Keep(SpentReqs(mid.requests, now), busy);
            && Divided(mid.requests, now, left', busy, spare)
            && (!Spent(joined, now) ==> gw !in busy && !Stuck(left, gw) && left' == left)
            && (Spent(joined, now) && gw !in busy ==>
                  Stuck(left, gw) && joined.packets == [icmp] + At(left, gw).packets && left' - {joined} == left - {At(left, gw)})
  {
    SpentAreUnique(st.requests, now);
    hide *;
    JoinedIs(rt, st.requests, gw, icmp, now);
    var k := IndexOf(mid.requests, gw);
    OnlyOneFor(mid.requests, k);
    SpentMembers(mid.requests, k, now);
    DividedMid(st.requests, mid.requests, gw, icmp, mid.requests[k], now, left, busy, spare);
  }

  lemma SpentMembers(requests: seq<Request>, k: nat, now: int)
    requires k < |requests|
    ensures Spent(requests[k], now) <==> requests[k] in SpentReqs(requests, now)
    ensures forall x <- SpentReqs(requests, now) :: x in requests
  {
  }

  /** The answer joins the request for its next hop, and that request is handled. */
  lemma {:induction false} JoinedFollows(rt: Router, st: State, hop: Ip, p: Packet, now: int, walked: multiset<Packet>,
                                         left: set<Request>, busy: set<Ip>, spare: set<Ip>)
    requires rt.Valid() && InvWith(rt, st, walked) && Divided(st.requests, now, left, busy, spare)
    requires Routed(rt, hop, p.src) && WaitsOn(rt, st.entries, p.src).Some?
    ensures var mid, gw := AnswerWaits(rt, st, hop, p), WaitsOn(rt, st.entries, p.src).value;
            Follows(HandleNested(rt, mid, gw, now, spare), WalkOne(rt, st.entries, left, hop, p.src, busy), now, busy)
    decreases |spare|, 0, 1
  {
    var mid, gw := AnswerWaits(rt, st, hop, p), WaitsOn(rt, st.entries, p.src).value;
    var icmp := Icmp(rt, st.log, hop, p);
    assert mid.entries == st.entries && mid.requests == QueueReq(st.requests, gw, icmp);
    assert RequestsOk(rt, st.requests) && RoutedVia(rt, icmp, gw);
    AnswerWaitsInv(rt, st, hop, p, now, walked);
    assert gw == Best(rt.table, p.src).value.gw;
    hide *;
    InvIsUnique(rt, mid, walked + multiset{p});
    JoinDivides(rt, st, mid, gw, icmp, now, left, busy, spare);
    var joined, left' := mid.requests[IndexOf(mid.requests, gw)], Keep(SpentReqs(mid.requests, now), busy);
    NestedFollows(rt, mid, gw, now, walked + multiset{p}, left', busy, spare);
    IcmpSource(rt, st.log, hop, p);
    WalkOneIs(rt, st.entries, left, hop, p.src, busy);
    if Spent(joined, now) && gw !in busy {
      SourcesOfPush(icmp, At(left, gw).packets);
    }
    NoneFollows(HandleNested(rt, mid, gw, now, spare), WalkOne(rt, st.entries, left, hop, p.src, busy), now, busy);
  }

  lemma NoneFollows(h: Option<State>, w: Option<set<Request>>, now: int, busy: set<Ip>)
    ensures h.None? && w.None? ==> Follows(h, w, now, busy)
  {
  }

  // ----- one request, and the list -------------------------------------------------------------------

  /** The call for one request: a spent one is expired. */
  ghost function WalkRequest(rt: Router, entries: seq<Entry>, left: set<Request>, ip: Ip): Option<set<Request>>
    requires rt.Valid()
  {
    if Stuck(left, ip) then
      var q := At(left, ip);
      WalkAll(rt, entries, left - {q}, ip, SourcesOf(q.packets), {ip})
    else Some(left)
  }

  /** Whatever the routes, the call fails exactly where the walk does, and leaves the spent requests it leaves. */
  lemma HandleWalks(rt: Router, st: State, ip: Ip, now: int)
    requires rt.Valid() && Inv(rt, st) && ip in IpSet(st.requests)
    ensures var h, w := HandleReq(rt, st, ip, now), WalkRequest(rt, st.entries, SpentReqs(st.requests, now), ip);
            (h.None? <==> w.None?) && (h.Some? ==> w.value == SpentReqs(h.value.requests, now))
  {
    var spent, spare := SpentReqs(st.requests, now), SpentIps(st.requests, now);
    InvIsUnique(rt, st, multiset{});
    OnlyOneAt(st.requests, ip);
    var k := IndexOf(st.requests, ip);
    assert Divided(st.requests, now, spent, {}, spare);
    NestedFollows(rt, st, ip, now, multiset{}, spent, {}, spare);
    HandleIs(rt, st, ip, now);
    SpentMembers(st.requests, k, now);
    hide InvWith, HandleReq, HandleNested, SpentReqs, SpentIps, Spent, WalkAll, UniqueIps, IpSet;
    assert {} + {ip} == {ip};
    var h := HandleReq(rt, st, ip, now);
    if h.Some? {
      assert Keep(SpentReqs(h.value.requests, now), {}) == SpentReqs(h.value.requests, now);
    }
  }

  function IpsIn(requests: set<Request>): set<Ip> {
    set r | r in requests :: r.ip
  }

  /** The round over the list: it fails with a request, or where it loses the request it has saved. */
  ghost function WalkList(rt: Router, entries: seq<Entry>, left: set<Request>, ips: seq<Ip>): Option<set<Request>>
    requires rt.Valid()
    decreases |ips|
  {
    if ips == [] then Some(left)
    else
      var w := WalkRequest(rt, entries, left, ips[0]);
      if w.None? then None
      else
        var gone := IpsIn(left - w.value);
        if |ips| > 1 && ips[1] in gone then None else WalkList(rt, entries, w.value, Alive(ips[1..], gone))
  }

  lemma GoneIsWalked(st: State, after: State, now: int)
    requires Moved(st, after, now, SpentIps(st.requests, now))
    ensures Gone(st, after) == IpsIn(SpentReqs(st.requests, now) - SpentReqs(after.requests, now))
  {
    SpentIpsOf(st.requests, now);
    hide SpentReqs, SpentIps, Gone, Extends, News, IpSet, DueIps;
  }

  /** Whatever the routes, a round of the timeout thread fails exactly where the walk over the list does. */
  lemma {:induction false} SweepWalks(rt: Router, st: State, ips: seq<Ip>, now: int)
    requires rt.Valid() && Inv(rt, st) && DistinctIps(ips) && forall ip <- ips :: ip in IpSet(st.requests)
    ensures Sweep(rt, st, ips, now).None? <==> WalkList(rt, st.entries, SpentReqs(st.requests, now), ips).None?
    decreases |ips|
  {
    hide Inv, HandleReq, Sweep, SpentReqs, SpentIps, IpSet, Gone, Moved, DueIps, WalkRequest, IpsIn, DistinctIps, Alive;
    SweepStep(rt, st, ips, now);
    if ips != [] {
      assert ips[0] in ips;
      HandleWalks(rt, st, ips[0], now);
      if HandleReq(rt, st, ips[0], now).Some? {
        var h := HandleReq(rt, st, ips[0], now).value;
        Handled(rt, st, ips, now);
        GoneIsWalked(st, h, now);
        SameEntries(st, h, now, SpentIps(st.requests, now));
        SweepWalks(rt, h, Alive(ips[1..], Gone(st, h)), now);
      }
    }
  }
}
