/** When handling a request fails: conditions on the requests as they are before the call. */
module ArpFailure {
  import opened Options
  import opened RoutingTable
  import opened ArpSpec
  import opened ArpInvariant
  import opened ArpExpiry

  // ----- answers that wait on answers ------------------------------------------------------------

  /** Both routes that the answer to a packet from `src`, waiting on `hop`, needs. */
  predicate Routed(rt: Router, hop: Ip, src: Ip) {
    Best(rt.table, hop).Some? && Best(rt.table, src).Some?
  }

  /** The next hop such an answer has to wait for. */
  function WaitsOn(rt: Router, entries: seq<Entry>, src: Ip): Option<Ip> {
    var back := Best(rt.table, src);
    if back.Some? && Lookup(entries, back.value.gw).None? then Some(back.value.gw) else None
  }

  function Sources(packets: seq<Packet>): set<Ip> {
    set p | p in packets :: p.src
  }

  /**
   * Some answer cannot be sent: it has no route, it waits on a request that is being expired (`busy`), or
   * on another spent request that cannot be expired in turn. The answer that a nested expiry starts from
   * waits there itself, so `own` adds the router's address to the sources of the nested request.
   */
  ghost predicate Fails(rt: Router, entries: seq<Entry>, spent: set<Request>, hop: Ip, srcs: set<Ip>, busy: set<Ip>, own: bool)
    requires rt.Valid()
    decreases |spent|, 1
  {
    exists src <- srcs :: SourceFails(rt, entries, spent, hop, src, busy, own)
  }

  ghost predicate SourceFails(rt: Router, entries: seq<Entry>, spent: set<Request>, hop: Ip, src: Ip, busy: set<Ip>, own: bool)
    requires rt.Valid()
    decreases |spent|, 0
  {
    || !Routed(rt, hop, src)
    || (WaitsOn(rt, entries, src).Some? &&
          var gw := WaitsOn(rt, entries, src).value;
          || gw in busy
          || exists q <- spent :: q.ip == gw &&
               (Fewer(spent, q);
                Fails(rt, entries, spent - {q}, gw, Sources(q.packets) + (if own then {OwnAddress(rt, hop)} else {}), busy + {gw}, own)))
  }

  lemma Fewer(spent: set<Request>, q: Request)
    ensures q in spent ==> |spent - {q}| < |spent|
  {
  }

  // ----- a call that fails has such a reason -----------------------------------------------------

  /** Every spent request is being expired, or is among those that may be expired in turn. */
  ghost predicate Covered(requests: seq<Request>, now: int, spare: set<Ip>, spent: set<Request>, busy: set<Ip>) {
    forall r <- SpentReqs(requests, now) :: r.ip in busy || (r in spent && r.ip in spare)
  }

  lemma CoveredLater(st: State, after: State, now: int, allowed: set<Ip>, spare: set<Ip>, spent: set<Request>, busy: set<Ip>)
    requires Moved(st, after, now, allowed) && Covered(st.requests, now, spare, spent, busy)
    ensures Covered(after.requests, now, spare, spent, busy)
  {
    hide SpentReqs, Gone, Extends;
  }

  /** A request for one of the addresses was destroyed. */
  ghost predicate Touched(st: State, after: State, ips: set<Ip>) {
    exists ip <- ips :: ip in Gone(st, after)
  }

  /** The call fails, or destroys the request for one of the addresses. */
  ghost predicate Bad(st: State, after: Option<State>, ips: set<Ip>) {
    after.None? || Touched(st, after.value, ips)
  }

  lemma {:induction false} AnswerAllFails(rt: Router, st: State, hop: Ip, packets: seq<Packet>, now: int, walked: multiset<Packet>,
                                          spare: set<Ip>, spent: set<Request>, busy: set<Ip>)
    requires rt.Valid() && InvWith(rt, st, walked) && Covered(st.requests, now, spare, spent, busy)
    ensures Bad(st, AnswerAll(rt, st, hop, packets, now, spare), busy)
        ==> Fails(rt, st.entries, spent, hop, Sources(packets), busy, true)
    decreases |spare|, 2, |packets|
  {
    hide InvWith, AnswerOne, SourceFails, Covered, SpentReqs, Gone, Extends;
    if packets == [] {
      Untouched(st, st, busy);
    } else {
      var front, last := packets[..|packets| - 1], packets[|packets| - 1];
      assert forall p <- front :: p in packets;
      AnswerAllFails(rt, st, hop, front, now, walked, spare, spent, busy);
      AnswerAllKeeps(rt, st, hop, front, now, walked, spare);
      var s := AnswerAll(rt, st, hop, front, now, spare);
      if s.Some? {
        CoveredLater(st, s.value, now, spare, spare, spent, busy);
        AnswerOneFails(rt, s.value, hop, last, now, walked + multiset(front), spare, spent, busy);
        AnswerOneKeeps(rt, s.value, hop, last, now, walked + multiset(front), spare);
        assert last.src in Sources(packets);
        var r := AnswerOne(rt, s.value, hop, last, now, spare);
        if r.Some? {
          NewsSplit(st, s.value, r.value);
        }
      }
    }
  }

  lemma Untouched(st: State, after: State, ips: set<Ip>)
    requires after.log.expired == st.log.expired
    ensures !Touched(st, after, ips) && Gone(st, after) == {}
  {
  }

  lemma SameEntries(st: State, after: State, now: int, allowed: set<Ip>)
    requires Moved(st, after, now, allowed)
    ensures after.entries == st.entries
  {
  }

  lemma {:induction false} AnswerOneFails(rt: Router, st: State, hop: Ip, p: Packet, now: int, walked: multiset<Packet>,
                                          spare: set<Ip>, spent: set<Request>, busy: set<Ip>)
    requires rt.Valid() && InvWith(rt, st, walked) && Covered(st.requests, now, spare, spent, busy)
    ensures Bad(st, AnswerOne(rt, st, hop, p, now, spare), busy)
        ==> SourceFails(rt, st.entries, spent, hop, p.src, busy, true)
    decreases |spare|, 1, 0
  {
    if Routed(rt, hop, p.src) {
      var r := AnswerOne(rt, st, hop, p, now, spare);
      if WaitsOn(rt, st.entries, p.src).Some? {
        AnswerOneIs(rt, st, hop, p, now, spare);
        JoinedFails(rt, st, hop, p, now, walked, spare, spent, busy);
        if r.Some? {
          JoinNews(rt, st, hop, p, r.value);
        }
      } else {
        Untouched(st, r.value, busy);
      }
    }
    hide Fails, HandleNested, AnswerWaits, Gone, News;
  }

  /** The request the answer joins cannot be handled, or not without destroying a busy one. */
  lemma {:induction false} JoinedFails(rt: Router, st: State, hop: Ip, p: Packet, now: int, walked: multiset<Packet>,
                                       spare: set<Ip>, spent: set<Request>, busy: set<Ip>)
    requires rt.Valid() && InvWith(rt, st, walked) && Covered(st.requests, now, spare, spent, busy)
    requires Routed(rt, hop, p.src) && WaitsOn(rt, st.entries, p.src).Some?
    ensures var mid, gw := AnswerWaits(rt, st, hop, p), WaitsOn(rt, st.entries, p.src).value;
            Bad(mid, HandleNested(rt, mid, gw, now, spare), busy) ==> SourceFails(rt, st.entries, spent, hop, p.src, busy, true)
    decreases |spare|, 0, 0
  {
    var mid, gw := AnswerWaits(rt, st, hop, p), WaitsOn(rt, st.entries, p.src).value;
    var icmp := Icmp(rt, st.log, hop, p);
    AnswerWaitsInv(rt, st, hop, p, now, walked);
    JoinedIs(rt, st.requests, gw, icmp, now);
    var k := IndexOf(mid.requests, gw);
    NestedFails(rt, mid, gw, now, spare, walked + multiset{p}, busy);
    hide HandleNested, InvWith, SpentReqs, AnswerAll, Sources, SourceFails, AnswerWaits, OwnAddress, QueueReq, Icmp, Touched, Bad;
    if Bad(mid, HandleNested(rt, mid, gw, now, spare), busy) {
      var q :| q in SpentReqs(st.requests, now) && q.ip == gw && mid.requests[k] == q.(packets := [icmp] + q.packets);
      assert q.ip in busy || (q in spent && gw in spare);
      if gw in busy {
        BusyFails(rt, st.entries, spent, hop, p.src, busy);
      } else {
        Smaller(spare, gw);
        CoveredNested(st, mid, gw, q, now, spare, spent, busy);
        AnswerAllFails(rt, mid, gw, mid.requests[k].packets, now, walked + multiset{p}, spare - {gw}, spent - {q}, busy + {gw});
        SourcesPush(icmp, q.packets);
        IcmpSource(rt, st.log, hop, p);
        NextFails(rt, st.entries, spent, hop, p.src, busy, q);
      }
    }
  }

  lemma IcmpSource(rt: Router, log: Log, hop: Ip, p: Packet)
    requires rt.Valid() && Best(rt.table, hop).Some?
    ensures Icmp(rt, log, hop, p).src == OwnAddress(rt, hop)
  {
  }

  lemma BusyFails(rt: Router, entries: seq<Entry>, spent: set<Request>, hop: Ip, src: Ip, busy: set<Ip>)
    requires rt.Valid() && WaitsOn(rt, entries, src).Some? && WaitsOn(rt, entries, src).value in busy
    ensures SourceFails(rt, entries, spent, hop, src, busy, true)
  {
  }

  lemma NextFails(rt: Router, entries: seq<Entry>, spent: set<Request>, hop: Ip, src: Ip, busy: set<Ip>, q: Request)
    requires rt.Valid() && Routed(rt, hop, src) && WaitsOn(rt, entries, src) == Some(q.ip) && q in spent
    requires Fails(rt, entries, spent - {q}, q.ip, Sources(q.packets) + {OwnAddress(rt, hop)}, busy + {q.ip}, true)
    ensures SourceFails(rt, entries, spent, hop, src, busy, true)
  {
    hide Fails, Sources, OwnAddress, Best, Lookup;
  }

  /** The recursive call does so only on a spent request that is busy itself, or whose walk does. */
  lemma NestedFails(rt: Router, st: State, ip: Ip, now: int, spare: set<Ip>, walked: multiset<Packet>, busy: set<Ip>)
    requires rt.Valid() && InvWith(rt, st, walked) && ip in IpSet(st.requests)
    ensures var q := st.requests[IndexOf(st.requests, ip)];
            Bad(st, HandleNested(rt, st, ip, now, spare), busy) ==>
              && Spent(q, now)
              && (ip in spare && ip !in busy ==> Bad(st, AnswerAll(rt, st, ip, q.packets, now, spare - {ip}), busy + {ip}))
  {
    OnlyOneAt(st.requests, ip);
    var k := IndexOf(st.requests, ip);
    var q := st.requests[k];
    hide LogOk, EntriesOk, Balanced, RequestOk, SendQuery, AnswerAll, Expire, Touched, Gone;
    if !Due(q, now) {
      Untouched(st, st, busy);
    } else if q.timesSent < MAX_SENDS {
      SendQueryEffect(rt, st, k, now, walked);
      Untouched(st, SendQuery(rt, st, k, now).value, busy);
    } else if ip in spare {
      ExpireFails(rt, st, q, now, walked, spare - {ip}, busy);
    }
  }

  lemma ExpireFails(rt: Router, st: State, r: Request, now: int, walked: multiset<Packet>, spare: set<Ip>, busy: set<Ip>)
    requires rt.Valid() && InvWith(rt, st, walked)
    ensures Bad(st, Expire(rt, st, r, now, spare), busy) && r.ip !in busy
        ==> Bad(st, AnswerAll(rt, st, r.ip, r.packets, now, spare), busy + {r.ip})
  {
    hide AnswerAll, Gone, News, InvWith, Extends, Unlink, Moved;
    AnswerAllKeeps(rt, st, r.ip, r.packets, now, walked, spare);
    var s, e := AnswerAll(rt, st, r.ip, r.packets, now, spare), Expire(rt, st, r, now, spare);
    if s.Some? {
      MovedExtends(st, s.value, now, spare);
      DestroyedNews(st, s.value, e.value, Expiry(r, now));
    }
  }

  lemma SourcesPush(p: Packet, packets: seq<Packet>)
    ensures Sources([p] + packets) == Sources(packets) + {p.src}
  {
    assert forall x :: x in [p] + packets <==> x == p || x in packets;
  }

  lemma CoveredNested(st: State, mid: State, gw: Ip, q: Request, now: int, spare: set<Ip>, spent: set<Request>, busy: set<Ip>)
    requires Covered(st.requests, now, spare, spent, busy) && q in SpentReqs(st.requests, now) && q.ip == gw
    requires Keep(SpentReqs(mid.requests, now), {gw}) == Keep(SpentReqs(st.requests, now), {gw})
    ensures Covered(mid.requests, now, spare - {gw}, spent - {q}, busy + {gw})
  {
    hide SpentReqs;
    forall r | r in SpentReqs(mid.requests, now)
      ensures r.ip in busy + {gw} || (r in spent - {q} && r.ip in spare - {gw})
    {
      if r.ip != gw {
        assert r in Keep(SpentReqs(mid.requests, now), {gw});
      }
    }
  }
}
