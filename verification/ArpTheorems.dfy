/** What the ARP machine does over whole runs, and when it fails. */
module ArpTheorems {
  import opened Options
  import opened RoutingTable
  import opened ArpSpec
  import opened ArpInvariant
  import opened ArpExpiry
  import opened ArpFailure
  import opened ArpOrder
  import opened ArpHandling
  import opened ArpSweep
  import opened ArpWalk

  // ----- every step keeps the invariant --------------------------------------------------------

  lemma {:induction false} UniqueListed(requests: seq<Request>)
    requires UniqueIps(requests)
    ensures DistinctIps(Ips(requests)) && forall ip :: ip in Ips(requests) <==> ip in IpSet(requests)
  {
    var ips := Ips(requests);
    forall ip
      ensures ip in ips <==> ip in IpSet(requests)
    {
      if ip in ips {
        var k :| 0 <= k < |ips| && ips[k] == ip;
        assert requests[k] in requests;
      }
      if ip in IpSet(requests) {
        var r :| r in requests && r.ip == ip;
        var k :| 0 <= k < |requests| && requests[k] == r;
        assert ips[k] == ip;
      }
    }
  }

  lemma AgedOk(rt: Router, st: State, now: int)
    requires Inv(rt, st)
    ensures Inv(rt, st.(entries := Age(st.entries, now)))
  {
    hide RequestsOk, LogOk, Pending, Waited, AnsweredPackets;
    var aged := Age(st.entries, now);
    forall e | e in aged && e.valid
      ensures Reply(e.ip, e.mac) in st.log.replies
    {
      var k :| 0 <= k < |aged| && aged[k] == e;
      assert st.entries[k] in st.entries;
    }
  }

  /** The state one round of the timeout thread starts its sweep from. */
  function AgedState(st: State, now: int): State {
    st.(entries := Age(st.entries, now))
  }

  lemma TickIs(rt: Router, st: State, now: int)
    requires rt.Valid() && Inv(rt, st)
    ensures Tick(rt, st, now) == Sweep(rt, AgedState(st, now), Ips(st.requests), now)
    ensures Inv(rt, AgedState(st, now)) && DistinctIps(Ips(st.requests))
    ensures forall ip :: ip in Ips(st.requests) <==> ip in IpSet(st.requests)
    ensures AgedState(st, now).requests == st.requests && AgedState(st, now).log == st.log
  {
    AgedOk(rt, st, now);
    InvIsUnique(rt, st, multiset{});
    UniqueListed(st.requests);
    hide Sweep, InvWith, Age, IpSet, DistinctIps;
  }

  /**
   * A round of the timeout thread that does not fail: every cache entry it leaves valid is at most 15
   * seconds old, and all that are that young stay; no request is left that more than a second has passed
   * on; every request that was due with all its sends used up has been given up, with all its packets,
   * and no other has.
   */
  lemma TickEffect(rt: Router, st: State, now: int)
    requires rt.Valid() && Inv(rt, st)
    ensures var t := Tick(rt, st, now);
            t.Some? ==>
              && Inv(rt, t.value) && Extends(st.log, t.value.log)
              && |t.value.entries| == |st.entries|
              && (forall k | 0 <= k < |st.entries| ::
                    t.value.entries[k] == st.entries[k].(valid := st.entries[k].valid && now - st.entries[k].added <= 15))
              && (forall r <- t.value.requests :: now - r.sent <= 1)
              && (forall r <- SpentReqs(st.requests, now) :: exists e <- News(st, t.value) ::
                    e.time == now && e.request.ip == r.ip && e.request.sends == r.sends && forall p <- r.packets :: p in e.request.packets)
              && (forall e <- News(st, t.value) :: Recorded(e, SpentReqs(st.requests, now), now))
  {
    var t, aged := Tick(rt, st, now), AgedState(st, now);
    if t.Some? {
      TickIs(rt, st, now);
      SweepKeeps(rt, aged, Ips(st.requests), now);
      SweptDue(rt, st, t.value, now);
      NoneDue(t.value.requests, now);
      TickExpires(rt, st, t.value, now);
      MovedExtends(aged, t.value, now, SpentIps(st.requests, now));
      SameEntries(aged, t.value, now, SpentIps(st.requests, now));
    }
    hide Inv, Extends, Sweep, Tick, Moved, News, SpentReqs, SpentIps, DueIps, IpSet, Recorded, DistinctIps, InOrder;
  }

  lemma SweptDue(rt: Router, st: State, after: State, now: int)
    requires Moved(AgedState(st, now), after, now, SpentIps(st.requests, now))
    requires forall ip :: ip in Ips(st.requests) <==> ip in IpSet(st.requests)
    requires forall ip <- Ips(st.requests) :: ip !in DueIps(after.requests, now)
    ensures DueIps(after.requests, now) == {}
  {
    MovedPresent(AgedState(st, now), after, now, SpentIps(st.requests, now));
    assert DueIps(st.requests, now) <= IpSet(st.requests);
    hide Moved, DueIps, IpSet, Age, Gone, SpentIps;
  }

  lemma TickExpires(rt: Router, st: State, after: State, now: int)
    requires Inv(rt, st) && Moved(AgedState(st, now), after, now, SpentIps(st.requests, now))
    requires DueIps(after.requests, now) == {}
    ensures forall e <- News(st, after) :: Recorded(e, SpentReqs(st.requests, now), now)
    ensures forall r <- SpentReqs(st.requests, now) :: exists e <- News(st, after) ::
              e.time == now && e.request.ip == r.ip && e.request.sends == r.sends && forall p <- r.packets :: p in e.request.packets
  {
    var aged := AgedState(st, now);
    InvIsUnique(rt, st, multiset{});
    SpentAreUnique(st.requests, now);
    assert News(st, after) == News(aged, after);
    MovedRecords(aged, after, now, SpentIps(st.requests, now));
    hide InvWith, Moved, Age, SpentReqs, SpentIps, News, Gone, DueIps, UniqueIps;
    forall r | r in SpentReqs(st.requests, now)
      ensures exists e <- News(st, after) ::
                e.time == now && e.request.ip == r.ip && e.request.sends == r.sends && forall p <- r.packets :: p in e.request.packets
    {
      AllExpired(aged, after, now, r);
      var e :| e in News(st, after) && e.request.ip == r.ip;
      assert Recorded(e, SpentReqs(st.requests, now), now);
    }
  }

  lemma MovedRecords(st: State, after: State, now: int, allowed: set<Ip>)
    requires Moved(st, after, now, allowed)
    ensures forall e <- News(st, after) :: Recorded(e, SpentReqs(st.requests, now), now)
  {
    hide News, Recorded, SpentReqs, Gone, Extends;
  }

  lemma NoneDue(requests: seq<Request>, now: int)
    requires forall ip :: ip !in DueIps(requests, now)
    ensures forall r <- requests :: now - r.sent <= 1
  {
    forall r | r in requests
      ensures now - r.sent <= 1
    {
      assert r.ip !in DueIps(requests, now);
    }
  }

  /**
   * The timeout thread fails exactly when the round is blocked, if the router's own addresses are all
   * reachable without waiting on a spent request, or none of them has a route.
   */
  lemma TickFailsExactly(rt: Router, st: State, now: int, lost: bool)
    requires rt.Valid() && Inv(rt, st)
    requires Regular(rt, Age(st.entries, now), SpentReqs(st.requests, now), lost)
    ensures Tick(rt, st, now).None? <==> Blocked(rt, Age(st.entries, now), SpentReqs(st.requests, now), Ips(st.requests), lost)
  {
    TickIs(rt, st, now);
    SweepFailsExactly(rt, AgedState(st, now), Ips(st.requests), now, lost);
    hide *;
  }

  /**
   * Whatever the routes: a round that fails has a spent request whose answers have no route, or come back
   * to a request that is not yet expired; and it does fail if the packets that wait for the other hosts
   * alone make some spent request wait on itself, or leave an answer without a route.
   */
  lemma TickFailureBounds(rt: Router, st: State, now: int)
    requires rt.Valid() && Inv(rt, st)
    ensures var entries, spent := Age(st.entries, now), SpentReqs(st.requests, now);
            && (Tick(rt, st, now).None? ==> exists r, q :: r in spent && q in spent && Needs(rt, entries, spent, r, {q.ip}, true))
            && ((exists r <- spent :: Needs(rt, entries, spent, r, {}, false)) ==> Tick(rt, st, now).None?)
  {
    var aged, spent := AgedState(st, now), SpentReqs(st.requests, now);
    assert aged.entries == Age(st.entries, now);
    TickIs(rt, st, now);
    SpentListed(st.requests, now);
    hide Inv, Age, Sweep, SpentReqs, Needs, AgedState, IpSet, DistinctIps, Tick;
    if Tick(rt, st, now).None? {
      SweepFailsOnlyIf(rt, aged, Ips(st.requests), now);
    }
    forall r | r in spent && Needs(rt, aged.entries, spent, r, {}, false)
      ensures Tick(rt, st, now).None?
    {
      SweepFailsIf(rt, aged, Ips(st.requests), now, r);
    }
  }

  /**
   * Whatever the routes, exactly: the round fails where the walk does that answers, in the order of the list
   * and of each request's packets, by nothing but routes and the requests not yet expired.
   */
  lemma TickFailsWhereWalkDoes(rt: Router, st: State, now: int)
    requires rt.Valid() && Inv(rt, st)
    ensures Tick(rt, st, now).None?
       <==> WalkList(rt, Age(st.entries, now), SpentReqs(st.requests, now), Ips(st.requests)).None?
  {
    TickIs(rt, st, now);
    SweepWalks(rt, AgedState(st, now), Ips(st.requests), now);
    hide *;
  }

  lemma SpentListed(requests: seq<Request>, now: int)
    ensures forall r <- SpentReqs(requests, now) :: r.ip in IpSet(requests) && r in requests && r.timesSent >= MAX_SENDS
  {
  }

  /** Both routes exist, and what the host-unreachable message would wait on has sends left. */
  ghost predicate Answerable(rt: Router, entries: seq<Entry>, requests: seq<Request>, hop: Ip, p: Packet) {
    && Best(rt.table, hop).Some? && Best(rt.table, p.src).Some?
    && var gw := Best(rt.table, p.src).value.gw;
       Lookup(entries, gw).Some? || forall r <- requests :: r.ip == gw ==> r.timesSent < MAX_SENDS
  }

  /** If every waiting packet can be answered, no expiry fails. */
  lemma DisciplinedTickSucceeds(rt: Router, st: State, now: int)
    requires rt.Valid() && Inv(rt, st)
    requires forall r <- st.requests :: forall p <- r.packets :: Answerable(rt, Age(st.entries, now), st.requests, r.ip, p)
    ensures Tick(rt, st, now).Some?
  {
    var entries, spent := Age(st.entries, now), SpentReqs(st.requests, now);
    TickFailureBounds(rt, st, now);
    SpentListed(st.requests, now);
    hide Inv, Tick, Age, SpentReqs, Needs, Answerable, Settled, IpSet;
    forall r, q | r in spent && q in spent
      ensures !Needs(rt, entries, spent, r, {q.ip}, true)
    {
      forall p | p in r.packets
        ensures Settled(rt, entries, spent, r.ip, p.src, {})
      {
        assert Answerable(rt, entries, st.requests, r.ip, p);
        AnswerableSettled(rt, entries, st.requests, r.ip, p, now);
      }
      UnneededWhenSettled(rt, entries, spent, r, {q.ip});
    }
  }

  lemma AnswerableSettled(rt: Router, entries: seq<Entry>, requests: seq<Request>, hop: Ip, p: Packet, now: int)
    requires Answerable(rt, entries, requests, hop, p)
    ensures Settled(rt, entries, SpentReqs(requests, now), hop, p.src, {})
  {
    hide Best, Lookup, Due;
  }

  // ----- replies -------------------------------------------------------------------------------

  /** The departures of a flush, in the order of the packets. */
  function Departures(packets: seq<Packet>, hop: Ip, mac: Mac): (r: seq<Departure>)
    ensures |r| == |packets|
    ensures forall i | 0 <= i < |r| :: r[i] == Departure(packets[i], hop, mac, FlushTtl(packets[i].ttl))
  {
    if packets == [] then []
    else
      var p := packets[|packets| - 1];
      Departures(packets[..|packets| - 1], hop, mac) + [Departure(p, hop, mac, FlushTtl(p.ttl))]
  }

  lemma {:induction false} FlushAllEffect(rt: Router, log: Log, packets: seq<Packet>, hop: Ip, mac: Mac)
    requires forall p <- packets :: RoutedVia(rt, p, hop)
    ensures FlushAll(rt, log, packets, hop, mac) == Some(log.(flushed := log.flushed + Departures(packets, hop, mac)))
  {
    hide FlushTtl;
    if packets == [] {
      assert log.flushed + Departures(packets, hop, mac) == log.flushed;
    } else {
      var front, p := packets[..|packets| - 1], packets[|packets| - 1];
      assert forall x <- front :: x in packets;
      FlushAllEffect(rt, log, front, hop, mac);
      assert RoutedVia(rt, p, hop);
      var done, d := Departures(front, hop, mac), Departure(p, hop, mac, FlushTtl(p.ttl));
      assert Departures(packets, hop, mac) == done + [d];
      hide Departures;
      assert log.flushed + (done + [d]) == (log.flushed + done) + [d];
    }
  }

  lemma WaitedSnoc(log: seq<Departure>, d: Departure)
    ensures Waited(log + [d]) == Waited(log) + multiset{d.packet}
  {
    assert (log + [d])[..|log|] == log;
  }

  lemma {:induction false} WaitedDepartures(flushed: seq<Departure>, packets: seq<Packet>, hop: Ip, mac: Mac)
    ensures Waited(flushed + Departures(packets, hop, mac)) == Waited(flushed) + multiset(packets)
  {
    hide FlushTtl, Waited;
    if packets == [] {
      assert flushed + Departures(packets, hop, mac) == flushed;
    } else {
      var front, p := packets[..|packets| - 1], packets[|packets| - 1];
      WaitedDepartures(flushed, front, hop, mac);
      var done, d := Departures(front, hop, mac), Departure(p, hop, mac, FlushTtl(p.ttl));
      assert Departures(packets, hop, mac) == done + [d];
      hide Departures;
      assert flushed + (done + [d]) == (flushed + done) + [d];
      WaitedSnoc(flushed + done, d);
      assert packets == front + [p];
      assert Waited(flushed) + multiset(front) + multiset{p} == Waited(flushed) + (multiset(front) + multiset{p});
    }
  }

  /** A new entry in the cache, if any. */
  lemma LearnOk(entries: seq<Entry>, replies: seq<Reply>, ip: Ip, mac: Mac, now: int)
    requires EntriesOk(entries, replies)
    ensures EntriesOk(Learn(entries, ip, mac, now), replies + [Reply(ip, mac)])
  {
    var after := Learn(entries, ip, mac, now);
    var k := FreeSlot(entries);
    forall e | e in after && e.valid
      ensures Reply(e.ip, e.mac) in replies + [Reply(ip, mac)]
    {
      var i :| 0 <= i < |after| && after[i] == e;
      if i == k {
        assert (replies + [Reply(ip, mac)])[|replies|] == Reply(ip, mac);
      } else {
        assert entries[i] in entries;
      }
    }
  }

  lemma FlushedLogOk(rt: Router, log: Log, packets: seq<Packet>, hop: Ip, mac: Mac)
    requires LogOk(rt, log) && forall p <- packets :: RoutedVia(rt, p, hop)
    ensures LogOk(rt, log.(replies := log.replies + [Reply(hop, mac)], flushed := log.flushed + Departures(packets, hop, mac)))
    ensures LogOk(rt, log.(replies := log.replies + [Reply(hop, mac)]))
  {
    hide RoutedVia, FlushTtl, AnswerOk, ExpiryOk;
    var out := Departures(packets, hop, mac);
    var noted := log.(replies := log.replies + [Reply(hop, mac)]);
    var after := noted.(flushed := log.flushed + out);
    OkLater(log, noted);
    OkLater(log, after);
    assert noted.replies[|log.replies|] == Reply(hop, mac);
    forall d | d in after.flushed
      ensures DepartureOk(rt, d, after.replies) && d.ttl == FlushTtl(d.packet.ttl)
    {
      var i :| 0 <= i < |after.flushed| && after.flushed[i] == d;
      if i < |log.flushed| {
        assert log.flushed[i] == d;
      } else {
        assert d == out[i - |log.flushed|] && d.packet == packets[i - |log.flushed|];
      }
    }
  }

  /**
   * A reply never fails. Everything that waited for it leaves, once, in the order of the list, with the
   * MAC address of the reply; its request is gone, the first free slot of the cache holds the reply, and
   * nothing else is touched.
   */
  lemma ReceiveEffect(rt: Router, st: State, ip: Ip, mac: Mac, now: int)
    requires rt.Valid() && Inv(rt, st)
    ensures var k, r := IndexOf(st.requests, ip), Receive(rt, st, ip, mac, now);
            && r.Some? && Inv(rt, r.value) && Extends(st.log, r.value.log)
            && ip !in IpSet(r.value.requests)
            && r.value.requests == (if k < |st.requests| then st.requests[..k] + st.requests[k + 1..] else st.requests)
            && r.value.entries == Learn(st.entries, ip, mac, now)
            && r.value.log == st.log.(replies := st.log.replies + [Reply(ip, mac)],
                                      flushed := st.log.flushed + (if k < |st.requests| then Departures(st.requests[k].packets, ip, mac) else []))
  {
    hide Inv, Receive, Extends, Departures, IpSet, Learn;
    var k := IndexOf(st.requests, ip);
    if k < |st.requests| {
      ReceiveFlush(rt, st, k, mac, now);
    } else {
      ReceiveUnasked(rt, st, ip, mac, now);
      assert st.log.flushed + [] == st.log.flushed;
    }
  }

  /** A reply nobody waits for only fills the cache. */
  lemma ReceiveUnasked(rt: Router, st: State, ip: Ip, mac: Mac, now: int)
    requires rt.Valid() && Inv(rt, st) && IndexOf(st.requests, ip) == |st.requests|
    ensures var r := Receive(rt, st, ip, mac, now);
            && r.Some? && Inv(rt, r.value) && Extends(st.log, r.value.log)
            && r.value.requests == st.requests && ip !in IpSet(r.value.requests)
            && r.value.entries == Learn(st.entries, ip, mac, now)
            && r.value.log == st.log.(replies := st.log.replies + [Reply(ip, mac)])
  {
    hide LogOk, EntriesOk, Pending, Waited, AnsweredPackets, RequestsOk, Learn;
    LearnOk(st.entries, st.log.replies, ip, mac, now);
    FlushedLogOk(rt, st.log, [], ip, mac);
  }

  lemma ReceiveFlush(rt: Router, st: State, k: nat, mac: Mac, now: int)
    requires rt.Valid() && Inv(rt, st) && k < |st.requests|
    ensures var q := st.requests[k]; var r := Receive(rt, st, q.ip, mac, now);
            && r.Some? && Inv(rt, r.value) && Extends(st.log, r.value.log)
            && q.ip !in IpSet(r.value.requests)
            && r.value.requests == st.requests[..k] + st.requests[k + 1..]
            && r.value.entries == Learn(st.entries, q.ip, mac, now)
            && r.value.log == st.log.(replies := st.log.replies + [Reply(q.ip, mac)],
                                      flushed := st.log.flushed + Departures(q.packets, q.ip, mac))
  {
    hide LogOk, EntriesOk, Pending, Waited, AnsweredPackets, Learn, UniqueIps, FlushAll, RoutedVia, Spaced, Unlink;
    var q := st.requests[k];
    var log := st.log.(replies := st.log.replies + [Reply(q.ip, mac)]);
    IndexOfUnique(st.requests, k);
    LearnOk(st.entries, st.log.replies, q.ip, mac, now);
    assert RequestOk(rt, q);
    FlushAllEffect(rt, log, q.packets, q.ip, mac);
    WaitedDepartures(log.flushed, q.packets, q.ip, mac);
    FlushedLogOk(rt, st.log, q.packets, q.ip, mac);
    UnlinkEffect(rt, st.requests, k, now);
    UnlinkMembers(st.requests, k);
    var after := Receive(rt, st, q.ip, mac, now).value;
    var m := multiset(q.packets);
    assert Pending(st.requests) + Waited(st.log.flushed) + AnsweredPackets(st.log.answered)
        == Pending(after.requests) + (Waited(st.log.flushed) + m) + AnsweredPackets(st.log.answered);
  }

  // ----- packets on their way out --------------------------------------------------------------

  lemma SubmittedLogOk(rt: Router, log: Log, p: Packet, d: Departure)
    requires LogOk(rt, log) && p.id == log.nextId
    ensures LogOk(rt, log.(nextId := log.nextId + 1, queued := log.queued + [p]))
    ensures DepartureOk(rt, d, log.replies)
        ==> LogOk(rt, log.(nextId := log.nextId + 1, direct := log.direct + [d]))
  {
    hide DepartureOk, FlushTtl;
    var queued := log.(nextId := log.nextId + 1, queued := log.queued + [p]);
    var sent := log.(nextId := log.nextId + 1, direct := log.direct + [d]);
    OkLater(log, queued);
    OkLater(log, sent);
    hide AnswerOk, ExpiryOk;
  }

  /** A packet queued for its next hop: the state that handling the request starts from. */
  function Queued(st: State, gw: Ip, p: Packet): State {
    Enqueue(st.(log := st.log.(nextId := st.log.nextId + 1)), gw, p)
  }

  lemma QueuedInv(rt: Router, st: State, gw: Ip, p: Packet, now: int)
    requires Inv(rt, st) && RoutedVia(rt, p, gw) && p.id == st.log.nextId
    ensures Inv(rt, Queued(st, gw, p)) && gw in IpSet(Queued(st, gw, p).requests)
    ensures Extends(st.log, Queued(st, gw, p).log)
  {
    hide LogOk, RequestsOk, Pending, Waited, AnsweredPackets, QueueReq, RoutedVia;
    QueueReqEffect(rt, st.requests, gw, p, now);
    SubmittedLogOk(rt, st.log, p, Departure(p, gw, 0, 0));
    var mid := Queued(st, gw, p);
    assert mid.log.queued == st.log.queued + [p];
    assert multiset(mid.log.queued) == multiset(st.log.queued) + multiset{p};
    var n, w, a := Pending(st.requests), Waited(st.log.flushed), AnsweredPackets(st.log.answered);
    assert (n + multiset{p}) + w + a == (n + w + a) + multiset{p};
    hide IpSet;
  }

  /** The packet has to wait on a spent request, whose expiry needs that request itself or an answer without a route. */
  ghost predicate JoinsHopeless(rt: Router, st: State, p: Packet, now: int, own: bool)
    requires rt.Valid()
  {
    && Best(rt.table, p.dst).Some? && Lookup(st.entries, Best(rt.table, p.dst).value.gw).None?
    && var gw := Best(rt.table, p.dst).value.gw;
       var spent := SpentReqs(Queued(st, gw, p).requests, now);
       exists r <- spent :: r.ip == gw && Needs(rt, st.entries, spent, r, {}, own)
  }

  /** The addresses of the router are regular as they are seen when the packet has been queued. */
  ghost predicate RegularWhenQueued(rt: Router, st: State, p: Packet, now: int, lost: bool)
    requires rt.Valid()
  {
    Best(rt.table, p.dst).Some? ==>
      Regular(rt, st.entries, SpentReqs(Queued(st, Best(rt.table, p.dst).value.gw, p).requests, now), lost)
  }

  /** Submitting fails only when the packet joins a request that cannot be expired; with regular routes, exactly
      then. With the next hop resolved it leaves at once, a hop older unless it is the router's own. */
  lemma SubmitEffect(rt: Router, st: State, src: Ip, dst: Ip, ttl: nat, own: bool, now: int)
    requires rt.Valid() && Inv(rt, st)
    ensures var s, p := Submit(rt, st, src, dst, ttl, own, now), Packet(st.log.nextId, src, dst, ttl);
            && (s.Some? ==> Inv(rt, s.value) && Extends(st.log, s.value.log))
            && (s.None? ==> JoinsHopeless(rt, st, p, now, true))
            && (JoinsHopeless(rt, st, p, now, false) ==> s.None?)
            && (Best(rt.table, dst).None? ==> s == Some(st))
            && (Best(rt.table, dst).Some? && Lookup(st.entries, Best(rt.table, dst).value.gw).Some? ==>
                  var gw := Best(rt.table, dst).value.gw;
                  var left := if own then ttl else if ttl == 0 then 255 else ttl - 1;
                  ttl <= 255 ==>
                    s == Some(st.(log := st.log.(nextId := st.log.nextId + 1,
                                                 direct := st.log.direct + [Departure(p, gw, Lookup(st.entries, gw).value, left)]))))
            && (forall lost | RegularWhenQueued(rt, st, p, now, lost) :: s.None? <==> JoinsHopeless(rt, st, p, now, lost))
  {
    var route := Best(rt.table, dst);
    var p := Packet(st.log.nextId, src, dst, ttl);
    hide LogOk, RequestsOk, Pending, Waited, AnsweredPackets, Lookup, Best, SpentReqs, HandleReq, Decrement, QueueReq, Needs, IpSet, Regular, Queued;
    if route.Some? {
      var gw := route.value.gw;
      if Lookup(st.entries, gw).Some? {
        LookupOk(st.entries, st.log.replies, gw);
        SubmittedLogOk(rt, st.log, p, Departure(p, gw, Lookup(st.entries, gw).value, if own then ttl else Decrement(ttl)));
        if ttl <= 255 {
          DecrementIs(ttl);
        }
      } else {
        SubmitWaits(rt, st, src, dst, ttl, own, now);
        QueuedInv(rt, st, gw, p, now);
        JoinFails(rt, Queued(st, gw, p), gw, now);
      }
    }
  }

  /** Whatever the routes, exactly: submitting fails where the walk over the request does that the packet joins. */
  lemma SubmitFailsWhereWalkDoes(rt: Router, st: State, src: Ip, dst: Ip, ttl: nat, own: bool, now: int)
    requires rt.Valid() && Inv(rt, st)
    ensures Submit(rt, st, src, dst, ttl, own, now).None? <==>
              && Best(rt.table, dst).Some? && Lookup(st.entries, Best(rt.table, dst).value.gw).None?
              && var gw, p := Best(rt.table, dst).value.gw, Packet(st.log.nextId, src, dst, ttl);
                 WalkRequest(rt, st.entries, SpentReqs(Queued(st, gw, p).requests, now), gw).None?
  {
    var route := Best(rt.table, dst);
    var p := Packet(st.log.nextId, src, dst, ttl);
    if route.Some? && Lookup(st.entries, route.value.gw).None? {
      var gw := route.value.gw;
      SubmitWaits(rt, st, src, dst, ttl, own, now);
      QueuedInv(rt, st, gw, p, now);
      HandleWalks(rt, Queued(st, gw, p), gw, now);
    }
    hide Inv, Lookup, Best, SpentReqs, HandleReq, Decrement, WalkRequest, IpSet, Queued;
  }

  /** One less, in 8 bits. */
  lemma DecrementIs(ttl: nat)
    requires ttl <= 255
    ensures Decrement(ttl) == if ttl == 0 then 255 else ttl - 1
  {
  }

  lemma SubmitWaits(rt: Router, st: State, src: Ip, dst: Ip, ttl: nat, own: bool, now: int)
    requires rt.Valid() && Best(rt.table, dst).Some? && Lookup(st.entries, Best(rt.table, dst).value.gw).None?
    ensures var gw := Best(rt.table, dst).value.gw;
            var mid := Queued(st, gw, Packet(st.log.nextId, src, dst, ttl));
            Submit(rt, st, src, dst, ttl, own, now) == HandleReq(rt, mid, gw, now) && mid.entries == st.entries
  {
    hide HandleReq, QueueReq, Best, Lookup;
  }

  /** A packet queued on a request that is not spent: the request is asked again if a second has passed. */
  lemma HandleUnspent(rt: Router, st: State, k: nat, now: int)
    requires rt.Valid() && k < |st.requests| && IndexOf(st.requests, st.requests[k].ip) == k
    requires st.requests[k].packets != [] && Best(rt.table, st.requests[k].packets[0].dst).Some?
    ensures var q := st.requests[k]; var h := HandleReq(rt, st, q.ip, now);
            var again := q.(sent := now, timesSent := q.timesSent + 1, sends := q.sends + [now]);
            && (now - q.sent <= 1 ==> h == Some(st))
            && (now - q.sent > 1 && q.timesSent < 5 ==>
                  h == Some(st.(requests := st.requests[k := again],
                                log := st.log.(queries := st.log.queries + [Query(q.ip, q.packets[0].dst, now)]))))
  {
    hide Expire, Best, IndexOf, SpentIps;
  }

  /**
   * The first packet for a next hop that is not resolved opens a request, which is broadcast at once; at the
   * first two seconds of the clock it looks as if it had just been sent.
   */
  lemma FirstPacketAsks(rt: Router, st: State, src: Ip, dst: Ip, ttl: nat, own: bool, now: int)
    requires rt.Valid() && Best(rt.table, dst).Some? && Lookup(st.entries, Best(rt.table, dst).value.gw).None?
    requires Best(rt.table, dst).value.gw !in IpSet(st.requests)
    ensures var gw, p := Best(rt.table, dst).value.gw, Packet(st.log.nextId, src, dst, ttl);
            var log := st.log.(nextId := st.log.nextId + 1, queued := st.log.queued + [p]);
            Submit(rt, st, src, dst, ttl, own, now)
            == if now > 1 then
                 Some(State(st.entries, [Request(gw, now, 1, [p], [now])] + st.requests,
                            log.(queries := st.log.queries + [Query(gw, dst, now)])))
               else
                 Some(State(st.entries, [Request(gw, 0, 0, [p], [])] + st.requests, log))
  {
    var gw, p := Best(rt.table, dst).value.gw, Packet(st.log.nextId, src, dst, ttl);
    var mid, first := Queued(st, gw, p), Request(gw, 0, 0, [p], []);
    SubmitWaits(rt, st, src, dst, ttl, own, now);
    QueuedFirst(st, gw, p);
    assert mid.requests[0] == first && IndexOf(mid.requests, gw) == 0;
    HandleUnspent(rt, mid, 0, now);
    hide *;
    assert ([first] + st.requests)[0 := Request(gw, now, 1, [p], [now])] == [Request(gw, now, 1, [p], [now])] + st.requests;
    assert [] + [now] == [now];
  }

  lemma QueuedFirst(st: State, gw: Ip, p: Packet)
    requires gw !in IpSet(st.requests)
    ensures Queued(st, gw, p) == State(st.entries, [Request(gw, 0, 0, [p], [])] + st.requests,
                                       st.log.(nextId := st.log.nextId + 1, queued := st.log.queued + [p]))
  {
    assert IndexOf(st.requests, gw) == |st.requests|;
  }

  lemma QueuedLater(st: State, k: nat, p: Packet)
    requires UniqueIps(st.requests) && k < |st.requests|
    ensures Queued(st, st.requests[k].ip, p)
         == State(st.entries, st.requests[k := st.requests[k].(packets := [p] + st.requests[k].packets)],
                  st.log.(nextId := st.log.nextId + 1, queued := st.log.queued + [p]))
  {
    IndexOfUnique(st.requests, k);
  }

  /**
   * A later packet goes in front of those that wait already; its request is broadcast again only when more
   * than a second has passed, and at most five times. Whatever else its expiry does, the packet is on record.
   */
  lemma LaterPacketJoins(rt: Router, st: State, src: Ip, dst: Ip, ttl: nat, own: bool, now: int, k: nat)
    requires rt.Valid() && Inv(rt, st) && k < |st.requests|
    requires Best(rt.table, dst).Some? && Best(rt.table, dst).value.gw == st.requests[k].ip
    requires Lookup(st.entries, st.requests[k].ip).None?
    ensures var s, p := Submit(rt, st, src, dst, ttl, own, now), Packet(st.log.nextId, src, dst, ttl);
            var joined := st.requests[k].(packets := [p] + st.requests[k].packets);
            var again := joined.(sent := now, timesSent := joined.timesSent + 1, sends := joined.sends + [now]);
            var log := st.log.(nextId := st.log.nextId + 1, queued := st.log.queued + [p]);
            && (s.Some? ==> Extends(log, s.value.log))
            && (now - joined.sent <= 1 ==> s == Some(State(st.entries, st.requests[k := joined], log)))
            && (now - joined.sent > 1 && joined.timesSent < 5 ==>
                  s == Some(State(st.entries, st.requests[k := again], log.(queries := st.log.queries + [Query(joined.ip, dst, now)]))))
  {
    var gw, p := st.requests[k].ip, Packet(st.log.nextId, src, dst, ttl);
    var mid, joined := Queued(st, gw, p), st.requests[k].(packets := [p] + st.requests[k].packets);
    SubmitWaits(rt, st, src, dst, ttl, own, now);
    QueuedInv(rt, st, gw, p, now);
    JoinFails(rt, mid, gw, now);
    InvIsUnique(rt, st, multiset{});
    InvIsUnique(rt, mid, multiset{});
    QueuedLater(st, k, p);
    assert mid.requests[k] == joined;
    IndexOfUnique(mid.requests, k);
    HandleUnspent(rt, mid, k, now);
    hide *;
    var again := joined.(sent := now, timesSent := joined.timesSent + 1, sends := joined.sends + [now]);
    assert st.requests[k := joined][k := again] == st.requests[k := again];
  }

  /** Handling the request a packet has joined. */
  lemma JoinFails(rt: Router, st: State, gw: Ip, now: int)
    requires rt.Valid() && Inv(rt, st) && gw in IpSet(st.requests)
    ensures var h, spent := HandleReq(rt, st, gw, now), SpentReqs(st.requests, now);
            && (h.Some? ==> Inv(rt, h.value) && Extends(st.log, h.value.log))
            && (h.None? ==> exists r <- spent :: r.ip == gw && Needs(rt, st.entries, spent, r, {}, true))
            && ((exists r <- spent :: r.ip == gw && Needs(rt, st.entries, spent, r, {}, false)) ==> h.None?)
            && (forall lost | Regular(rt, st.entries, spent, lost) ::
                  h.None? <==> exists r <- spent :: r.ip == gw && Needs(rt, st.entries, spent, r, {}, lost))
  {
    var h, spent := HandleReq(rt, st, gw, now), SpentReqs(st.requests, now);
    HandleKeeps(rt, st, gw, now);
    InvIsUnique(rt, st, multiset{});
    SpentAreUnique(st.requests, now);
    if h.Some? {
      MovedExtends(st, h.value, now, SpentIps(st.requests, now));
    }
    hide Inv, HandleReq, Needs, SpentReqs, SpentIps, Regular, IpSet, DueIps, Gone, Moved, Extends, UniqueIps;
    if Stuck(spent, gw) {
      var r :| r in spent && r.ip == gw;
      HandleFails(rt, st, r, {}, now);
      forall lost | Regular(rt, st.entries, spent, lost)
        ensures h.None? <==> Needs(rt, st.entries, spent, r, {}, lost)
      {
        HandleFailsExactly(rt, st, r, {}, now, lost);
      }
    } else {
      UnspentSucceeds(rt, st, gw, now);
    }
  }

  // ----- whole runs ----------------------------------------------------------------------------

  lemma InitialInv(rt: Router)
    ensures Inv(rt, Initial())
  {
  }

  lemma ApplyKeepsInv(rt: Router, st: State, step: Step)
    requires rt.Valid() && Inv(rt, st)
    ensures Apply(rt, st, step).Some? ==> Inv(rt, Apply(rt, st, step).value) && Extends(st.log, Apply(rt, st, step).value.log)
  {
    hide Inv, Submit, Receive, Tick, Extends;
    match step
    case Transit(src, dst, ttl, now) => SubmitEffect(rt, st, src, dst, ttl, false, now);
    case Own(src, dst, now) => SubmitEffect(rt, st, src, dst, INIT_TTL, true, now);
    case Answered(ip, mac, now) => ReceiveEffect(rt, st, ip, mac, now);
    case Timeout(now) => TickEffect(rt, st, now);
  }

  lemma {:induction false} RunKeepsInv(rt: Router, steps: seq<Step>)
    requires rt.Valid()
    ensures Run(rt, steps).Some? ==> Inv(rt, Run(rt, steps).value)
  {
    hide Inv, Apply;
    if steps == [] {
      InitialInv(rt);
    } else {
      RunKeepsInv(rt, steps[..|steps| - 1]);
      if Run(rt, steps[..|steps| - 1]).Some? {
        ApplyKeepsInv(rt, Run(rt, steps[..|steps| - 1]).value, steps[|steps| - 1]);
      }
    }
  }

  // ----- conservation --------------------------------------------------------------------------

  lemma {:induction false} PendingPlace(requests: seq<Request>, p: Packet)
    ensures Pending(requests)[p] > 0 ==> exists k | 0 <= k < |requests| :: p in requests[k].packets
    ensures forall k | 0 <= k < |requests| && p in requests[k].packets :: Pending(requests)[p] > 0
    ensures Pending(requests)[p] <= 1 ==>
              forall j, k | 0 <= j < k < |requests| :: !(p in requests[j].packets && p in requests[k].packets)
  {
    if requests != [] {
      var rest := requests[1..];
      PendingPlace(rest, p);
      assert p in requests[0].packets <==> multiset(requests[0].packets)[p] > 0;
      assert forall k | 1 <= k < |requests| :: requests[k] == rest[k - 1];
      if Pending(rest)[p] > 0 {
        var k :| 0 <= k < |rest| && p in rest[k].packets;
        assert requests[k + 1] == rest[k];
      }
    }
  }

  lemma {:induction false} WaitedPlace(log: seq<Departure>, p: Packet)
    ensures Waited(log)[p] > 0 <==> exists d <- log :: d.packet == p
  {
    if log != [] {
      WaitedPlace(log[..|log| - 1], p);
      assert log == log[..|log| - 1] + [log[|log| - 1]];
    }
  }

  lemma {:induction false} AnsweredPlace(log: seq<Answer>, p: Packet)
    ensures AnsweredPackets(log)[p] > 0 <==> exists a <- log :: a.waited == p
  {
    if log != [] {
      AnsweredPlace(log[..|log| - 1], p);
      assert log == log[..|log| - 1] + [log[|log| - 1]];
    }
  }

  lemma {:induction false} QueuedOnce(queued: seq<Packet>, p: Packet)
    requires forall i, j | 0 <= i < j < |queued| :: queued[i].id < queued[j].id
    ensures multiset(queued)[p] == if p in queued then 1 else 0
  {
    if queued != [] {
      var front := queued[..|queued| - 1];
      QueuedOnce(front, p);
      assert queued == front + [queued[|queued| - 1]];
    }
  }

  /**
   * Every packet ever queued is, after any run, in exactly one place: waiting on the one request for
   * its next hop; sent, once, with the MAC address a reply gave for that hop; or answered, once, by a
   * host-unreachable message to its sender that was itself sent or queued. No other packet is there.
   */
  lemma PacketConservation(rt: Router, steps: seq<Step>, p: Packet)
    requires rt.Valid() && Run(rt, steps).Some?
    ensures var st := Run(rt, steps).value;
            var pending, sent, answered := Pending(st.requests)[p], Waited(st.log.flushed)[p], AnsweredPackets(st.log.answered)[p];
            && pending + sent + answered == (if p in st.log.queued then 1 else 0)
            && (pending == 1 ==> exists k | 0 <= k < |st.requests| ::
                  && p in st.requests[k].packets && RoutedVia(rt, p, st.requests[k].ip)
                  && forall j | 0 <= j < |st.requests| && j != k ::
                       p !in st.requests[j].packets && st.requests[j].ip != st.requests[k].ip)
            && (sent == 1 ==> exists d <- st.log.flushed ::
                  d.packet == p && RoutedVia(rt, p, d.hop) && Reply(d.hop, d.mac) in st.log.replies && d.ttl == FlushTtl(p.ttl))
            && (answered == 1 ==> exists a <- st.log.answered :: a.waited == p && AnswerOk(a, st.log))
  {
    RunKeepsInv(rt, steps);
    hide Run, Pending, Waited, AnsweredPackets, EntriesOk, AnswerOk, ExpiryOk, FlushTtl;
    var st := Run(rt, steps).value;
    QueuedOnce(st.log.queued, p);
    WaitedPlace(st.log.flushed, p);
    AnsweredPlace(st.log.answered, p);
    PendingPlace(st.requests, p);
    assert (multiset(st.log.queued) + multiset{})[p]
        == (Pending(st.requests) + Waited(st.log.flushed) + AnsweredPackets(st.log.answered))[p];
    if Pending(st.requests)[p] == 1 {
      var k :| 0 <= k < |st.requests| && p in st.requests[k].packets;
      assert RequestOk(rt, st.requests[k]);
    }
  }

  /**
   * After any run: no request was sent more than five times, its sends are two seconds or more apart,
   * and one that was given up was sent exactly five times, the first of them ten seconds or more before.
   */
  lemma RetryBound(rt: Router, steps: seq<Step>)
    requires rt.Valid() && Run(rt, steps).Some?
    ensures var st := Run(rt, steps).value;
            && (forall r <- st.requests :: r.timesSent == |r.sends| <= 5 && Spaced(r.sends) && r.packets != [])
            && (forall e <- st.log.expired :: ExpiryOk(e, st.log))
  {
    RunKeepsInv(rt, steps);
    hide Run, ExpiryOk, Spaced, EntriesOk, Balanced;
    forall r | r in Run(rt, steps).value.requests
      ensures r.timesSent == |r.sends| <= 5 && Spaced(r.sends) && r.packets != []
    {
      assert RequestOk(rt, r);
    }
  }

  /** Whatever IP packet leaves, at once or after waiting, it carries the MAC address that some reply
      gave for the next hop of its destination; so does every entry a lookup can return. */
  lemma EveryDepartureHasAReply(rt: Router, steps: seq<Step>, ip: Ip)
    requires rt.Valid() && Run(rt, steps).Some?
    ensures var st := Run(rt, steps).value;
            && (forall d <- st.log.flushed :: DepartureOk(rt, d, st.log.replies))
            && (forall d <- st.log.direct :: DepartureOk(rt, d, st.log.replies))
            && (Lookup(st.entries, ip).Some? ==> Reply(ip, Lookup(st.entries, ip).value) in st.log.replies)
  {
    hide Run, RequestsOk, Balanced, DepartureOk, FlushTtl, AnswerOk, ExpiryOk;
    RunKeepsInv(rt, steps);
    LookupOk(Run(rt, steps).value.entries, Run(rt, steps).value.log.replies, ip);
    hide Lookup;
  }

  /**
   * A packet that had to wait leaves one hop older exactly when it did not arrive with the largest
   * time to live: one forwarded with 255 is taken for a message of the router's own.
   */
  lemma WaitingCostsOneHop(rt: Router, steps: seq<Step>, d: Departure)
    requires rt.Valid() && Run(rt, steps).Some? && d in Run(rt, steps).value.log.flushed
    requires 1 <= d.packet.ttl <= 255
    ensures d.ttl == d.packet.ttl - 1 <==> d.packet.ttl != 255
  {
    hide *;
    FlushedTtl(rt, steps, d);
    FlushTtlValue(d.packet.ttl);
  }

  lemma FlushTtlValue(ttl: nat)
    requires 1 <= ttl <= 255
    ensures FlushTtl(ttl) == if ttl == 255 then ttl else ttl - 1
  {
  }

  lemma FlushedTtl(rt: Router, steps: seq<Step>, d: Departure)
    requires rt.Valid() && Run(rt, steps).Some? && d in Run(rt, steps).value.log.flushed
    ensures d.ttl == FlushTtl(d.packet.ttl)
  {
    RunKeepsInv(rt, steps);
    hide Run, RequestsOk, EntriesOk, Balanced, DepartureOk, FlushTtl, AnswerOk, ExpiryOk;
  }

  // ----- what a lookup returns -----------------------------------------------------------------

  predicate NoHit(entries: seq<Entry>, ip: Ip) {
    forall e <- entries :: !Hit(e, ip)
  }

  lemma {:induction false} LookupLast(entries: seq<Entry>, ip: Ip, k: nat)
    requires k < |entries|
    ensures Hit(entries[k], ip) && NoHit(entries[k + 1..], ip) ==> Lookup(entries, ip) == Some(entries[k].mac)
  {
    var n := |entries| - 1;
    if k < n && NoHit(entries[k + 1..], ip) {
      assert entries[k + 1..][n - k - 1] == entries[n];
      assert entries[..n][k + 1..] == entries[k + 1..][..n - k - 1];
      LookupLast(entries[..n], ip, k);
    }
  }

  lemma {:induction false} LookupNone(entries: seq<Entry>, ip: Ip)
    ensures Lookup(entries, ip).None? <==> NoHit(entries, ip)
  {
    if entries != [] {
      LookupNone(entries[..|entries| - 1], ip);
      assert entries == entries[..|entries| - 1] + [entries[|entries| - 1]];
    }
  }

  /** With room, and no older entry further down for the address, a reply is what later lookups find. */
  lemma LearnedIsFound(entries: seq<Entry>, ip: Ip, mac: Mac, now: int)
    requires FreeSlot(entries) < |entries| && NoHit(entries[FreeSlot(entries) + 1..], ip)
    ensures Lookup(Learn(entries, ip, mac, now), ip) == Some(mac)
  {
    var k := FreeSlot(entries);
    var after := Learn(entries, ip, mac, now);
    assert after[k + 1..] == entries[k + 1..];
    LookupLast(after, ip, k);
  }

  /** A reply learned for an address that had no entry serves every lookup of the next 15 seconds and none
      after that; lookups of other addresses do not see it. */
  lemma LearnedForFifteenSeconds(entries: seq<Entry>, ip: Ip, mac: Mac, now: int, later: int, other: Ip)
    requires FreeSlot(entries) < |entries| && NoHit(entries, ip) && other != ip
    ensures Lookup(Age(Learn(entries, ip, mac, now), later), ip) == if later - now <= 15 then Some(mac) else None
    ensures Lookup(Learn(entries, ip, mac, now), other) == Lookup(entries, other)
  {
    var k := FreeSlot(entries);
    var learned := Learn(entries, ip, mac, now);
    var aged := Age(learned, later);
    assert forall j | 0 <= j < |aged| && j != k :: aged[j] == Aged(entries[j], later) && entries[j] in entries;
    if later - now <= 15 {
      assert forall e <- aged[k + 1..] :: !Hit(e, ip);
      LookupLast(aged, ip, k);
    } else {
      assert forall e <- aged :: !Hit(e, ip);
      LookupNone(aged, ip);
    }
    hide Age, Learn;
    OneSlotElse(entries, learned, k, other);
  }

  /** A slot that holds nothing for an address, before or after, does not matter to it. */
  lemma {:induction false} OneSlotElse(entries: seq<Entry>, after: seq<Entry>, k: nat, ip: Ip)
    requires k < |entries| == |after| && after == entries[k := after[k]] && !Hit(entries[k], ip) && !Hit(after[k], ip)
    ensures Lookup(after, ip) == Lookup(entries, ip)
  {
    var n := |entries| - 1;
    if k < n {
      assert after[..n] == entries[..n][k := after[k]];
      OneSlotElse(entries[..n], after[..n], k, ip);
    } else {
      assert after[..n] == entries[..n];
    }
  }

  /** An older valid entry further down the array keeps hiding the new one. */
  lemma OldEntryHides(entries: seq<Entry>, ip: Ip, mac: Mac, now: int, k: nat)
    requires FreeSlot(entries) < k < |entries| && Hit(entries[k], ip) && NoHit(entries[k + 1..], ip)
    ensures Lookup(Learn(entries, ip, mac, now), ip) == Some(entries[k].mac)
  {
    var after := Learn(entries, ip, mac, now);
    assert after[k + 1..] == entries[k + 1..] && after[k] == entries[k];
    LookupLast(after, ip, k);
  }

  /** A full cache learns nothing, yet the waiting packets still leave with the reply's address. */
  lemma FullCacheStillFlushes(rt: Router, st: State, k: nat, mac: Mac, now: int)
    requires rt.Valid() && Inv(rt, st) && k < |st.requests| && FreeSlot(st.entries) == |st.entries|
    ensures var r := Receive(rt, st, st.requests[k].ip, mac, now);
            && r.Some? && r.value.entries == st.entries
            && r.value.log.flushed == st.log.flushed + Departures(st.requests[k].packets, st.requests[k].ip, mac)
  {
    ReceiveFlush(rt, st, k, mac, now);
    InvIsUnique(rt, st, multiset{});
    IndexOfUnique(st.requests, k);
    hide Inv, FlushAll, Unlink, Departures;
  }
}
