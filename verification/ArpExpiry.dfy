/** Handling a request: the walk that answers every waiting packet, the expiries that may start from it, and what all of it keeps. */
module ArpExpiry {
  import opened Bytes
  import opened Options
  import opened RoutingTable
  import opened ArpSpec
  import opened ArpInvariant

  // ----- from one state to a later one -----------------------------------------------------------

  /** The expiries between two states. */
  function News(st: State, after: State): seq<Expiry> {
    after.log.expired[Min(|st.log.expired|, |after.log.expired|)..]
  }

  /**
   * What handling does to the state besides the balance: it extends the history; it destroys only
   * requests that were spent and allowed to go, and every other spent request is left as it was.
   */
  ghost predicate Moved(st: State, after: State, now: int, allowed: set<Ip>) {
    var gone := Gone(st, after);
    && after.entries == st.entries && Extends(st.log, after.log)
    && gone <= allowed * SpentIps(st.requests, now)
    && SpentReqs(after.requests, now) == Keep(SpentReqs(st.requests, now), gone)
    && IpSet(st.requests) - gone <= IpSet(after.requests)
    && DueIps(after.requests, now) <= DueIps(st.requests, now) - gone
    && (forall e <- News(st, after) :: Recorded(e, SpentReqs(st.requests, now), now))
  }

  /** The expiry of one of the requests, perhaps with more packets than it had. */
  ghost predicate Recorded(e: Expiry, spent: set<Request>, now: int) {
    && e.time == now
    && exists r <- spent :: r.ip == e.request.ip && r.sends == e.request.sends && forall p <- r.packets :: p in e.request.packets
  }

  lemma NewsSplit(a: State, b: State, c: State)
    requires Extends(a.log, b.log) && Extends(b.log, c.log)
    ensures Extends(a.log, c.log) && News(a, c) == News(a, b) + News(b, c)
    ensures Gone(a, c) == Gone(a, b) + Gone(b, c)
  {
    assert News(a, c) == News(a, b) + News(b, c);
    GoneIs(a, c);
    GoneIs(a, b);
    GoneIs(b, c);
    hide Gone;
  }

  /** Gone is the addresses of the news. */
  lemma GoneIs(st: State, after: State)
    ensures forall ip :: ip in Gone(st, after) <==> exists e <- News(st, after) :: e.request.ip == ip
  {
  }

  lemma MovedBoth(a: State, b: State, c: State, now: int, allowed: set<Ip>)
    requires Moved(a, b, now, allowed) && Moved(b, c, now, allowed)
    ensures Moved(a, c, now, allowed)
  {
    NewsSplit(a, b, c);
    hide News, Gone, Extends, Spent;
    SpentIpsOf(a.requests, now);
    SpentIpsOf(b.requests, now);
    hide SpentIps;
  }

  lemma SpentIpsOf(requests: seq<Request>, now: int)
    ensures forall ip :: ip in SpentIps(requests, now) <==> Stuck(SpentReqs(requests, now), ip)
  {
  }

  /** A state that changes in nothing but requests that are not spent, and in what is not due any more. */
  lemma MovedQuietly(st: State, after: State, now: int, allowed: set<Ip>)
    requires after.entries == st.entries && Extends(st.log, after.log) && after.log.expired == st.log.expired
    requires SpentReqs(after.requests, now) == SpentReqs(st.requests, now)
    requires IpSet(st.requests) <= IpSet(after.requests) && DueIps(after.requests, now) <= DueIps(st.requests, now)
    ensures Moved(st, after, now, allowed) && Gone(st, after) == {}
  {
    assert News(st, after) == [];
    hide Spent, Extends;
  }

  // ----- one packet answered ---------------------------------------------------------------------

  /** What the walk keeps while it answers packets: one more packet counts as walked. */
  ghost predicate Answering(rt: Router, st: State, after: State, now: int, walked: multiset<Packet>, spare: set<Ip>) {
    InvWith(rt, after, walked) && Moved(st, after, now, spare)
  }

  /** The answer leaves at once: its next hop is in the cache. */
  lemma AnswerSent(rt: Router, st: State, hop: Ip, p: Packet, now: int, walked: multiset<Packet>, spare: set<Ip>)
    requires rt.Valid() && InvWith(rt, st, walked)
    requires Best(rt.table, hop).Some? && Best(rt.table, p.src).Some?
    requires Lookup(st.entries, Best(rt.table, p.src).value.gw).Some?
    ensures var r := AnswerOne(rt, st, hop, p, now, spare);
            && r.Some? && Answering(rt, st, r.value, now, walked + multiset{p}, spare)
            && exists a <- r.value.log.answered :: a.waited == p
  {
    hide LogOk, RequestsOk, Pending, Waited, AnsweredPackets, Lookup, Best, SpentReqs, DueIps, IpSet, Balanced, Moved;
    var gw := Best(rt.table, p.src).value.gw;
    var icmp := Icmp(rt, st.log, hop, p);
    var d := Departure(icmp, gw, Lookup(st.entries, gw).value, INIT_TTL);
    LookupOk(st.entries, st.log.replies, gw);
    AnswerLogged(rt, st.log, Answer(p, icmp), d);
    var after := AnswerOne(rt, st, hop, p, now, spare).value;
    assert after.log == WithAnswer(st.log, Answer(p, icmp)).(direct := st.log.direct + [d]);
    AnswerBalanced(st, after, multiset{}, p, walked);
    assert after.log.answered[|st.log.answered|] == Answer(p, icmp);
    MovedQuietly(st, after, now, spare);
  }

  /** Answering `p` keeps the balance: `p` counts as answered, and what was queued is pending. */
  lemma AnswerBalanced(st: State, mid: State, more: multiset<Packet>, p: Packet, walked: multiset<Packet>)
    requires Balanced(st, walked)
    requires mid.log.flushed == st.log.flushed && multiset(mid.log.queued) == multiset(st.log.queued) + more
    requires Pending(mid.requests) == Pending(st.requests) + more
    requires AnsweredPackets(mid.log.answered) == AnsweredPackets(st.log.answered) + multiset{p}
    ensures Balanced(mid, walked + multiset{p})
  {
    hide Pending, Waited, AnsweredPackets;
    var q, w := multiset(st.log.queued), Waited(st.log.flushed);
    var n, a := Pending(st.requests), AnsweredPackets(st.log.answered);
    assert (q + more) + (walked + multiset{p}) == (q + walked) + (more + multiset{p});
    assert (n + more) + w + (a + multiset{p}) == (n + w + a) + (more + multiset{p});
  }

  /** The state in which the answer to `p` waits on its next hop and nothing has been done about it. */
  function AnswerWaits(rt: Router, st: State, hop: Ip, p: Packet): State
    requires rt.Valid() && Best(rt.table, hop).Some? && Best(rt.table, p.src).Some?
  {
    var icmp := Icmp(rt, st.log, hop, p);
    var gw := Best(rt.table, p.src).value.gw;
    State(st.entries, QueueReq(st.requests, gw, icmp),
          WithAnswer(st.log, Answer(p, icmp)).(queued := st.log.queued + [icmp]))
  }

  lemma AnswerWaitsInv(rt: Router, st: State, hop: Ip, p: Packet, now: int, walked: multiset<Packet>)
    requires rt.Valid() && InvWith(rt, st, walked)
    requires Best(rt.table, hop).Some? && Best(rt.table, p.src).Some?
    ensures var mid, gw := AnswerWaits(rt, st, hop, p), Best(rt.table, p.src).value.gw;
            && InvWith(rt, mid, walked + multiset{p}) && gw in IpSet(mid.requests)
            && IpSet(st.requests) <= IpSet(mid.requests)
            && DueIps(mid.requests, now) <= DueIps(st.requests, now) + {gw}
            && Keep(SpentReqs(mid.requests, now), {gw}) == Keep(SpentReqs(st.requests, now), {gw})
            && (!Stuck(SpentReqs(st.requests, now), gw) ==> SpentReqs(mid.requests, now) == SpentReqs(st.requests, now))
            && (exists a <- mid.log.answered :: a.waited == p)
  {
    hide LogOk, RequestsOk, EntriesOk, Pending, Waited, AnsweredPackets, Best, SpentReqs, DueIps, QueueReq, IpSet, Balanced;
    var gw := Best(rt.table, p.src).value.gw;
    var icmp := Icmp(rt, st.log, hop, p);
    AnswerLogged(rt, st.log, Answer(p, icmp), Departure(icmp, gw, 0, 0));
    QueueReqEffect(rt, st.requests, gw, icmp, now);
    var mid := AnswerWaits(rt, st, hop, p);
    assert multiset(mid.log.queued) == multiset(st.log.queued) + multiset{icmp};
    AnswerBalanced(st, mid, multiset{icmp}, p, walked);
    assert mid.log.answered[|st.log.answered|] == Answer(p, icmp);
  }

  /** The spent request an answer joins is the old one, with the answer in front. */
  lemma JoinedIs(rt: Router, requests: seq<Request>, ip: Ip, p: Packet, now: int)
    requires RequestsOk(rt, requests) && RoutedVia(rt, p, ip)
    ensures var after, k := QueueReq(requests, ip, p), IndexOf(QueueReq(requests, ip, p), ip);
            && k < |after| && after[k].ip == ip
            && (Spent(after[k], now) ==>
                  exists q <- SpentReqs(requests, now) :: q.ip == ip && after[k] == q.(packets := [p] + q.packets))
            && (!Spent(after[k], now) ==> !Stuck(SpentReqs(requests, now), ip))
  {
    QueuedAt(requests, ip, p);
    var k := IndexOf(requests, ip);
    if k < |requests| {
      OnlyOneFor(requests, k);
      assert requests[k] in requests;
    }
    hide RequestOk, QueueReq;
  }

  /** Queuing an answer on `gw`, then handling the request for `gw`, seen as one. */
  lemma JoinMoved(rt: Router, st: State, hop: Ip, p: Packet, after: State, now: int, spare: set<Ip>, walked: multiset<Packet>)
    requires rt.Valid() && InvWith(rt, st, walked)
    requires Best(rt.table, hop).Some? && Best(rt.table, p.src).Some?
    requires var mid, gw := AnswerWaits(rt, st, hop, p), Best(rt.table, p.src).value.gw;
             && Moved(mid, after, now, spare) && gw !in DueIps(after.requests, now)
             && (Stuck(SpentReqs(mid.requests, now), gw) ==> gw in Gone(mid, after))
    ensures Moved(st, after, now, spare) && Gone(st, after) == Gone(AnswerWaits(rt, st, hop, p), after)
  {
    var mid, gw := AnswerWaits(rt, st, hop, p), Best(rt.table, p.src).value.gw;
    AnswerWaitsInv(rt, st, hop, p, now, walked);
    JoinRecorded(rt, st, mid, hop, p, now);
    JoinNews(rt, st, hop, p, after);
    SpentIpsOf(st.requests, now);
    SpentIpsOf(mid.requests, now);
    JoinSpent(SpentReqs(st.requests, now), SpentReqs(mid.requests, now), Gone(mid, after), gw);
    hide *;
    MovedExtends(mid, after, now, spare);
    MovedJoin(st, mid, after, now, spare, gw);
  }

  lemma MovedExtends(st: State, after: State, now: int, allowed: set<Ip>)
    requires Moved(st, after, now, allowed)
    ensures Extends(st.log, after.log)
  {
  }

  lemma MovedJoin(st: State, mid: State, after: State, now: int, spare: set<Ip>, gw: Ip)
    requires Moved(mid, after, now, spare) && gw !in DueIps(after.requests, now)
    requires mid.entries == st.entries && Extends(st.log, after.log)
    requires News(st, after) == News(mid, after) && Gone(st, after) == Gone(mid, after)
    requires Keep(SpentReqs(mid.requests, now), Gone(mid, after)) == Keep(SpentReqs(st.requests, now), Gone(mid, after))
    requires forall ip :: Stuck(SpentReqs(mid.requests, now), ip) <==> Stuck(SpentReqs(st.requests, now), ip)
    requires forall ip :: ip in SpentIps(mid.requests, now) <==> Stuck(SpentReqs(mid.requests, now), ip)
    requires forall ip :: ip in SpentIps(st.requests, now) <==> Stuck(SpentReqs(st.requests, now), ip)
    requires IpSet(st.requests) <= IpSet(mid.requests) && DueIps(mid.requests, now) <= DueIps(st.requests, now) + {gw}
    requires forall e: Expiry :: Recorded(e, SpentReqs(mid.requests, now), now) ==> Recorded(e, SpentReqs(st.requests, now), now)
    ensures Moved(st, after, now, spare)
  {
    hide SpentReqs, SpentIps, IpSet, DueIps, Recorded, Gone, News, Extends, Keep, Stuck;
  }

  lemma JoinNews(rt: Router, st: State, hop: Ip, p: Packet, after: State)
    requires rt.Valid() && Best(rt.table, hop).Some? && Best(rt.table, p.src).Some?
    ensures var mid := AnswerWaits(rt, st, hop, p);
            && mid.entries == st.entries && Extends(st.log, mid.log)
            && (Extends(mid.log, after.log) ==> Extends(st.log, after.log))
            && News(st, after) == News(mid, after) && Gone(st, after) == Gone(mid, after)
  {
    hide Best, QueueReq;
  }

  lemma JoinSpent(s: set<Request>, m: set<Request>, gone: set<Ip>, gw: Ip)
    requires Keep(m, {gw}) == Keep(s, {gw})
    ensures forall ip :: ip != gw ==> (Stuck(s, ip) <==> Stuck(m, ip))
    ensures gw in gone || s == m ==> Keep(m, gone) == Keep(s, gone)
  {
    assert forall r: Request :: r.ip != gw ==> (r in s <==> r in Keep(s, {gw})) && (r in m <==> r in Keep(m, {gw}));
  }

  lemma JoinRecorded(rt: Router, st: State, mid: State, hop: Ip, p: Packet, now: int)
    requires rt.Valid() && RequestsOk(rt, st.requests)
    requires Best(rt.table, hop).Some? && Best(rt.table, p.src).Some? && mid == AnswerWaits(rt, st, hop, p)
    requires var gw := Best(rt.table, p.src).value.gw;
             Keep(SpentReqs(mid.requests, now), {gw}) == Keep(SpentReqs(st.requests, now), {gw}) && UniqueIps(mid.requests)
    ensures forall e: Expiry :: Recorded(e, SpentReqs(mid.requests, now), now) ==> Recorded(e, SpentReqs(st.requests, now), now)
    ensures Stuck(SpentReqs(mid.requests, now), Best(rt.table, p.src).value.gw)
       <==> Stuck(SpentReqs(st.requests, now), Best(rt.table, p.src).value.gw)
  {
    var gw := Best(rt.table, p.src).value.gw;
    var s, m := SpentReqs(st.requests, now), SpentReqs(mid.requests, now);
    var k := IndexOf(mid.requests, gw);
    JoinedIs(rt, st.requests, gw, Icmp(rt, st.log, hop, p), now);
    OnlyOneFor(mid.requests, k);
    assert mid.requests[k] in mid.requests;
    hide Best, QueueReq, Icmp, Spent, RequestOk;
    forall e: Expiry | Recorded(e, m, now)
      ensures Recorded(e, s, now)
    {
      var r :| r in m && r.ip == e.request.ip && r.sends == e.request.sends && forall x <- r.packets :: x in e.request.packets;
      if r.ip != gw {
        assert r in Keep(m, {gw});
      }
    }
  }

  // ----- the recursion ---------------------------------------------------------------------------

  /** The recursive call on a request that is there. */
  lemma {:induction false} NestedKeeps(rt: Router, st: State, ip: Ip, now: int, walked: multiset<Packet>, spare: set<Ip>)
    requires rt.Valid() && InvWith(rt, st, walked) && ip in IpSet(st.requests)
    ensures var r := HandleNested(rt, st, ip, now, spare);
            r.Some? ==>
              && InvWith(rt, r.value, walked) && Moved(st, r.value, now, spare)
              && ip !in DueIps(r.value.requests, now)
              && (Stuck(SpentReqs(st.requests, now), ip) ==> ip in Gone(st, r.value))
    decreases |spare|, 0, 0
  {
    OnlyOneAt(st.requests, ip);
    var k := IndexOf(st.requests, ip);
    var q := st.requests[k];
    hide LogOk, EntriesOk, Balanced, RequestOk, SendQuery, Expire, Moved, Gone;
    if !Due(q, now) {
      MovedQuietly(st, st, now, spare);
    } else if q.timesSent < MAX_SENDS {
      SendQueryEffect(rt, st, k, now, walked);
      MovedQuietly(st, HandleNested(rt, st, ip, now, spare).value, now, spare);
    } else if ip in spare {
      Smaller(spare, ip);
      ExpireKeeps(rt, st, k, now, walked, spare - {ip});
      var r := HandleNested(rt, st, ip, now, spare);
      if r.Some? {
        assert spare - {ip} + {ip} == spare;
        MovedDue(st, r.value, now, spare);
      }
    }
  }

  lemma Smaller(s: set<Ip>, ip: Ip)
    requires ip in s
    ensures |s - {ip}| < |s|
  {
  }

  lemma MovedDue(st: State, after: State, now: int, allowed: set<Ip>)
    requires Moved(st, after, now, allowed)
    ensures forall ip <- Gone(st, after) :: ip !in DueIps(after.requests, now)
  {
    hide Gone, SpentReqs;
  }

  /** One waiting packet. */
  lemma {:induction false} AnswerOneKeeps(rt: Router, st: State, hop: Ip, p: Packet, now: int, walked: multiset<Packet>, spare: set<Ip>)
    requires rt.Valid() && InvWith(rt, st, walked)
    ensures var r := AnswerOne(rt, st, hop, p, now, spare);
            r.Some? ==>
              && InvWith(rt, r.value, walked + multiset{p}) && Moved(st, r.value, now, spare)
              && exists a <- r.value.log.answered :: a.waited == p
    decreases |spare|, 1, 0
  {
    if Best(rt.table, hop).Some? && Best(rt.table, p.src).Some? {
      var gw := Best(rt.table, p.src).value.gw;
      if Lookup(st.entries, gw).Some? {
        AnswerSent(rt, st, hop, p, now, walked, spare);
      } else {
        var mid := AnswerWaits(rt, st, hop, p);
        AnswerWaitsInv(rt, st, hop, p, now, walked);
        AnswerOneIs(rt, st, hop, p, now, spare);
        NestedKeeps(rt, mid, gw, now, walked + multiset{p}, spare);
        var r := HandleNested(rt, mid, gw, now, spare);
        hide InvWith, HandleNested, AnswerWaits, AnswerOne, Gone, SpentReqs, DueIps, IpSet;
        if r.Some? {
          JoinMoved(rt, st, hop, p, r.value, now, spare, walked);
          assert forall a <- mid.log.answered :: a in r.value.log.answered;
        }
      }
    }
  }

  /** Every sender of a waiting packet is told at once: both routes exist and the way back is resolved. */
  ghost predicate ToldAtOnce(rt: Router, entries: seq<Entry>, hop: Ip, packets: seq<Packet>) {
    && Best(rt.table, hop).Some?
    && forall p <- packets :: Best(rt.table, p.src).Some? && Lookup(entries, Best(rt.table, p.src).value.gw).Some?
  }

  /** The message to the sender of `p`, with the serial number `id`. */
  function Unreachable(rt: Router, hop: Ip, p: Packet, id: nat): Packet
    requires rt.Valid() && Best(rt.table, hop).Some?
    ensures Best(rt.table, hop).value.iface in rt.address
    ensures Unreachable(rt, hop, p, id) == Packet(id, rt.address[Best(rt.table, hop).value.iface], p.src, 255)
  {
    RouteIsInTable(rt.table, hop);
    Packet(id, OwnAddress(rt, hop), p.src, 255)
  }

  /** The messages to the senders of all the packets, numbered on from `id`, each with what it answers. */
  function Unreachables(rt: Router, hop: Ip, packets: seq<Packet>, id: nat): (r: seq<Answer>)
    requires rt.Valid() && Best(rt.table, hop).Some?
    ensures |r| == |packets|
    ensures forall i | 0 <= i < |r| :: r[i] == Answer(packets[i], Unreachable(rt, hop, packets[i], id + i))
  {
    if packets == [] then []
    else
      var n := |packets| - 1;
      Unreachables(rt, hop, packets[..n], id) + [Answer(packets[n], Unreachable(rt, hop, packets[n], id + n))]
  }

  ghost predicate WaysBack(rt: Router, entries: seq<Entry>, answers: seq<Answer>) {
    forall a <- answers :: Best(rt.table, a.icmp.dst).Some? && Lookup(entries, Best(rt.table, a.icmp.dst).value.gw).Some?
  }

  /** How those messages leave when every way back is resolved. */
  ghost function Tellings(rt: Router, entries: seq<Entry>, answers: seq<Answer>): (r: seq<Departure>)
    requires WaysBack(rt, entries, answers)
    ensures |r| == |answers|
    ensures forall i | 0 <= i < |r| ::
              var gw := Best(rt.table, answers[i].icmp.dst).value.gw;
              r[i] == Departure(answers[i].icmp, gw, Lookup(entries, gw).value, 255)
  {
    if answers == [] then []
    else
      var n := |answers| - 1;
      var last := answers[n].icmp;
      var gw := Best(rt.table, last.dst).value.gw;
      assert answers[n] in answers;
      Tellings(rt, entries, answers[..n]) + [Departure(last, gw, Lookup(entries, gw).value, 255)]
  }

  /** The walk tells every sender once, newest packet first, and touches neither cache nor requests. */
  lemma {:induction false} AllToldInOrder(rt: Router, st: State, hop: Ip, packets: seq<Packet>, now: int, spare: set<Ip>)
    requires rt.Valid() && ToldAtOnce(rt, st.entries, hop, packets)
    ensures var answers := Unreachables(rt, hop, packets, st.log.nextId);
            AnswerAll(rt, st, hop, packets, now, spare) == Some(Told(st, |packets|, answers, Tellings(rt, st.entries, answers)))
  {
    hide ToldAtOnce, WaysBack, AnswerOne, Unreachables, Unreachable, Tellings, Best, Lookup, OwnAddress;
    if packets == [] {
      NothingTold(rt, st, hop);
    } else {
      var n := |packets| - 1;
      var front, last := packets[..n], packets[n];
      TellingsSnoc(rt, st.entries, hop, packets, st.log.nextId);
      AllToldInOrder(rt, st, hop, front, now, spare);
      var mid := AnswerAll(rt, st, hop, front, now, spare).value;
      ToldOne(rt, mid, hop, last, now, spare);
      var before, icmp := Unreachables(rt, hop, front, st.log.nextId), Unreachable(rt, hop, last, st.log.nextId + n);
      var gw := Best(rt.table, last.src).value.gw;
      ToldMore(st, n, before, Answer(last, icmp), Tellings(rt, st.entries, before), Departure(icmp, gw, Lookup(st.entries, gw).value, 255));
    }
  }

  lemma NothingTold(rt: Router, st: State, hop: Ip)
    requires rt.Valid() && ToldAtOnce(rt, st.entries, hop, [])
    ensures Unreachables(rt, hop, [], st.log.nextId) == [] && Tellings(rt, st.entries, []) == []
    ensures Told(st, 0, [], []) == st
  {
    assert st.log.answered + [] == st.log.answered && st.log.direct + [] == st.log.direct;
  }

  /** A state with more messages told. */
  function Told(st: State, n: nat, answers: seq<Answer>, told: seq<Departure>): State {
    st.(log := st.log.(nextId := st.log.nextId + n, answered := st.log.answered + answers, direct := st.log.direct + told))
  }

  lemma ToldMore(st: State, n: nat, answers: seq<Answer>, a: Answer, told: seq<Departure>, d: Departure)
    ensures Told(Told(st, n, answers, told), 1, [a], [d]) == Told(st, n + 1, answers + [a], told + [d])
  {
    assert st.log.answered + (answers + [a]) == (st.log.answered + answers) + [a];
    assert st.log.direct + (told + [d]) == (st.log.direct + told) + [d];
  }

  lemma TellingsSnoc(rt: Router, entries: seq<Entry>, hop: Ip, packets: seq<Packet>, id: nat)
    requires rt.Valid() && packets != [] && ToldAtOnce(rt, entries, hop, packets)
    ensures var n := |packets| - 1; var last := packets[n];
            var before, icmp := Unreachables(rt, hop, packets[..n], id), Unreachable(rt, hop, last, id + n);
            && ToldAtOnce(rt, entries, hop, packets[..n]) && Best(rt.table, hop).Some?
            && WaysBack(rt, entries, before) && WaysBack(rt, entries, Unreachables(rt, hop, packets, id))
            && Best(rt.table, last.src).Some? && Lookup(entries, Best(rt.table, last.src).value.gw).Some?
            && Unreachables(rt, hop, packets, id) == before + [Answer(last, icmp)]
            && var gw := Best(rt.table, last.src).value.gw;
               Tellings(rt, entries, Unreachables(rt, hop, packets, id))
               == Tellings(rt, entries, before) + [Departure(icmp, gw, Lookup(entries, gw).value, 255)]
  {
    var n := |packets| - 1;
    var before, answers := Unreachables(rt, hop, packets[..n], id), Unreachables(rt, hop, packets, id);
    assert answers[..n] == before && packets[n] in packets;
    assert forall p <- packets[..n] :: p in packets;
    hide Best, Lookup, OwnAddress;
  }

  /** One sender told at once. */
  lemma ToldOne(rt: Router, st: State, hop: Ip, p: Packet, now: int, spare: set<Ip>)
    requires rt.Valid() && Best(rt.table, hop).Some? && Best(rt.table, p.src).Some?
    requires Lookup(st.entries, Best(rt.table, p.src).value.gw).Some?
    ensures var icmp, gw := Unreachable(rt, hop, p, st.log.nextId), Best(rt.table, p.src).value.gw;
            AnswerOne(rt, st, hop, p, now, spare)
            == Some(Told(st, 1, [Answer(p, icmp)], [Departure(icmp, gw, Lookup(st.entries, gw).value, 255)]))
  {
    hide Best, Lookup;
  }

  /** What the sender of a waiting packet is told, and by which address: the one of the interface towards the
      next hop that did not answer. The message leaves at once, or waits in its turn. */
  lemma AnswerOneSays(rt: Router, st: State, hop: Ip, p: Packet, now: int, walked: multiset<Packet>, spare: set<Ip>)
    requires rt.Valid() && InvWith(rt, st, walked)
    requires Best(rt.table, hop).Some? && Best(rt.table, p.src).Some?
    ensures var r, gw := AnswerOne(rt, st, hop, p, now, spare), Best(rt.table, p.src).value.gw;
            var icmp := Unreachable(rt, hop, p, st.log.nextId);
            var mac := Lookup(st.entries, gw);
            if mac.Some? then
              r == Some(Told(st, 1, [Answer(p, icmp)], [Departure(icmp, gw, mac.value, 255)]))
            else
              r.Some? ==> st.log.answered + [Answer(p, icmp)] <= r.value.log.answered && st.log.queued + [icmp] <= r.value.log.queued
  {
    var gw := Best(rt.table, p.src).value.gw;
    if Lookup(st.entries, gw).None? {
      var mid := AnswerWaits(rt, st, hop, p);
      AnswerWaitsInv(rt, st, hop, p, now, walked);
      AnswerOneIs(rt, st, hop, p, now, spare);
      NestedKeeps(rt, mid, gw, now, walked + multiset{p}, spare);
      var r := HandleNested(rt, mid, gw, now, spare);
      hide InvWith, HandleNested, AnswerOne, Gone, SpentReqs, DueIps, IpSet, Best, Lookup, QueueReq;
      if r.Some? {
        MovedExtends(mid, r.value, now, spare);
      }
    } else {
      ToldOne(rt, st, hop, p, now, spare);
      hide *;
    }
  }

  lemma AnswerOneIs(rt: Router, st: State, hop: Ip, p: Packet, now: int, spare: set<Ip>)
    requires rt.Valid() && Best(rt.table, hop).Some? && Best(rt.table, p.src).Some?
    requires Lookup(st.entries, Best(rt.table, p.src).value.gw).None?
    ensures AnswerOne(rt, st, hop, p, now, spare)
         == HandleNested(rt, AnswerWaits(rt, st, hop, p), Best(rt.table, p.src).value.gw, now, spare)
  {
    hide HandleNested, QueueReq, Best, Lookup;
  }

  lemma {:induction false} AnswerAllKeeps(rt: Router, st: State, hop: Ip, packets: seq<Packet>, now: int, walked: multiset<Packet>, spare: set<Ip>)
    requires rt.Valid() && InvWith(rt, st, walked)
    ensures var r := AnswerAll(rt, st, hop, packets, now, spare);
            r.Some? ==>
              && InvWith(rt, r.value, walked + multiset(packets)) && Moved(st, r.value, now, spare)
              && forall p <- packets :: exists a <- r.value.log.answered :: a.waited == p
    decreases |spare|, 2, |packets|
  {
    hide InvWith, AnswerOne, SpentReqs, DueIps, IpSet, Moved;
    if packets == [] {
      assert walked + multiset(packets) == walked;
      MovedQuietly(st, st, now, spare);
    } else {
      var front, last := packets[..|packets| - 1], packets[|packets| - 1];
      assert packets == front + [last];
      AnswerAllKeeps(rt, st, hop, front, now, walked, spare);
      var s := AnswerAll(rt, st, hop, front, now, spare);
      if s.Some? {
        AnswerOneKeeps(rt, s.value, hop, last, now, walked + multiset(front), spare);
        assert walked + multiset(packets) == walked + multiset(front) + multiset{last};
        var r := AnswerOne(rt, s.value, hop, last, now, spare);
        if r.Some? {
          MovedBoth(st, s.value, r.value, now, spare);
          MovedAnswers(s.value, r.value, now, spare);
        }
      }
    }
  }

  lemma MovedAnswers(st: State, after: State, now: int, allowed: set<Ip>)
    requires Moved(st, after, now, allowed)
    ensures forall a <- st.log.answered :: a in after.log.answered
  {
  }

  lemma ExpiredLogOk(rt: Router, log: Log, r: Request, now: int)
    requires LogOk(rt, log) && RequestOk(rt, r) && Spent(r, now)
    requires forall p <- r.packets :: exists a <- log.answered :: a.waited == p
    ensures LogOk(rt, log.(expired := log.expired + [Expiry(r, now)]))
  {
    var after := log.(expired := log.expired + [Expiry(r, now)]);
    OkLater(log, after);
    assert r.sends[MAX_SENDS - 1] - r.sends[0] >= 2 * (MAX_SENDS - 1);
    assert ExpiryOk(Expiry(r, now), after);
    hide DepartureOk, FlushTtl, AnswerOk, ExpiryOk;
  }

  /** An expiry that comes to its end keeps the invariant and takes its request off the list. */
  lemma {:induction false} ExpireKeeps(rt: Router, st: State, k: nat, now: int, walked: multiset<Packet>, spare: set<Ip>)
    requires rt.Valid() && InvWith(rt, st, walked) && k < |st.requests| && Spent(st.requests[k], now)
    requires st.requests[k].ip !in spare
    ensures var r := st.requests[k]; var e := Expire(rt, st, r, now, spare);
            e.Some? ==>
              && InvWith(rt, e.value, walked) && Moved(st, e.value, now, spare + {r.ip})
              && r.ip in Gone(st, e.value) && Expiry(r, now) in News(st, e.value)
    decreases |spare|, 3, 0
  {
    var r := st.requests[k];
    AnswerAllKeeps(rt, st, r.ip, r.packets, now, walked, spare);
    var s := AnswerAll(rt, st, r.ip, r.packets, now, spare);
    if s.Some? {
      hide AnswerAll;
      Destroyed(rt, st, k, s.value, now, walked, spare);
    }
  }

  /** The last act of an expiry. */
  lemma Destroyed(rt: Router, st: State, k: nat, s: State, now: int, walked: multiset<Packet>, spare: set<Ip>)
    requires k < |st.requests| && Spent(st.requests[k], now) && st.requests[k].ip !in spare
    requires RequestsOk(rt, st.requests)
    requires var r := st.requests[k];
             && InvWith(rt, s, walked + multiset(r.packets)) && Moved(st, s, now, spare)
             && forall p <- r.packets :: exists a <- s.log.answered :: a.waited == p
    ensures var r := st.requests[k];
            var after := s.(requests := Unlink(s.requests, r.ip), log := s.log.(expired := s.log.expired + [Expiry(r, now)]));
            && InvWith(rt, after, walked) && Moved(st, after, now, spare + {r.ip})
            && r.ip in Gone(st, after) && Expiry(r, now) in News(st, after)
  {
    var r := st.requests[k];
    var after := s.(requests := Unlink(s.requests, r.ip), log := s.log.(expired := s.log.expired + [Expiry(r, now)]));
    assert r in st.requests && r in SpentReqs(st.requests, now);
    assert r in SpentReqs(s.requests, now) by { hide InvWith, Spent; }
    var j :| 0 <= j < |s.requests| && s.requests[j] == r;
    assert r in s.requests;
    UnlinkEffect(rt, s.requests, j, now);
    ExpiredLogOk(rt, s.log, r, now);
    DestroyedBalanced(s, after, r.packets, walked);
    DestroyedNews(st, s, after, Expiry(r, now));
    hide Unlink, Extends, Gone, News, Spent, RequestOk, LogOk, EntriesOk, Balanced;
    SpentIpsOf(st.requests, now);
    hide SpentIps;
    DestroyedMoves(st, s, after, r, now, spare);
  }

  lemma DestroyedBalanced(s: State, after: State, packets: seq<Packet>, walked: multiset<Packet>)
    requires Balanced(s, walked + multiset(packets))
    requires Pending(after.requests) + multiset(packets) == Pending(s.requests)
    requires after.log == s.log.(expired := after.log.expired)
    ensures Balanced(after, walked)
  {
    hide Pending, Waited, AnsweredPackets;
    var q, n, m := multiset(s.log.queued), Pending(after.requests), multiset(packets);
    var w, a := Waited(s.log.flushed), AnsweredPackets(s.log.answered);
    assert q + (walked + m) == (q + walked) + m;
    assert (n + m) + w + a == (n + w + a) + m;
    Cancel(q + walked, n + w + a, m);
  }

  lemma DestroyedNews(st: State, s: State, after: State, e: Expiry)
    requires Extends(st.log, s.log) && after.log == s.log.(expired := s.log.expired + [e])
    ensures Extends(st.log, after.log) && News(st, after) == News(st, s) + [e]
    ensures Gone(st, after) == Gone(st, s) + {e.request.ip}
  {
    assert News(st, after) == News(st, s) + [e];
    GoneIs(st, after);
    GoneIs(st, s);
    assert (News(st, s) + [e])[|News(st, s)|] == e;
    hide Gone;
  }

  lemma DestroyedMoves(st: State, s: State, after: State, r: Request, now: int, spare: set<Ip>)
    requires Moved(st, s, now, spare) && r.ip !in spare && r in SpentReqs(st.requests, now)
    requires forall x <- SpentReqs(st.requests, now) :: x.ip == r.ip ==> x == r
    requires after.entries == s.entries && Extends(st.log, after.log)
    requires News(st, after) == News(st, s) + [Expiry(r, now)] && Gone(st, after) == Gone(st, s) + {r.ip}
    requires SpentReqs(after.requests, now) == SpentReqs(s.requests, now) - {r}
    requires IpSet(after.requests) == IpSet(s.requests) - {r.ip}
    requires DueIps(after.requests, now) <= DueIps(s.requests, now) - {r.ip}
    ensures Moved(st, after, now, spare + {r.ip}) && r.ip in Gone(st, after) && Expiry(r, now) in News(st, after)
  {
    hide Gone, News, Extends, Spent, IpSet, DueIps;
    SpentIpsOf(st.requests, now);
    hide SpentIps;
    assert Recorded(Expiry(r, now), SpentReqs(st.requests, now), now);
    assert (News(st, s) + [Expiry(r, now)])[|News(st, s)|] == Expiry(r, now);
    hide SpentReqs, Recorded;
  }
}
