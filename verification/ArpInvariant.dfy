/** What holds of the ARP cache and its requests between any two operations, and how each one keeps it. */
module ArpInvariant {
  import opened Options
  import opened RoutingTable
  import opened ArpSpec

  // ----- requests ------------------------------------------------------------------------------

  /** The packet's next hop is `hop`. */
  predicate RoutedVia(rt: Router, p: Packet, hop: Ip) {
    Best(rt.table, p.dst).Some? && Best(rt.table, p.dst).value.gw == hop
  }

  /** Consecutive sends are at least two seconds apart. */
  ghost predicate Spaced(sends: seq<int>) {
    forall i, j | 0 <= i < j < |sends| :: sends[j] - sends[i] >= 2 * (j - i)
  }

  ghost predicate RequestOk(rt: Router, r: Request) {
    && r.packets != []
    && r.timesSent == |r.sends| <= MAX_SENDS
    && Spaced(r.sends)
    && (r.sends != [] ==> r.sent == r.sends[|r.sends| - 1])
    && forall p <- r.packets :: RoutedVia(rt, p, r.ip)
  }

  ghost predicate UniqueIps(requests: seq<Request>) {
    forall i, j | 0 <= i < j < |requests| :: requests[i].ip != requests[j].ip
  }

  ghost predicate RequestsOk(rt: Router, requests: seq<Request>) {
    UniqueIps(requests) && forall r <- requests :: RequestOk(rt, r)
  }

  function Pending(requests: seq<Request>): multiset<Packet> {
    if requests == [] then multiset{} else multiset(requests[0].packets) + Pending(requests[1..])
  }

  /** The requests whose next handling is an expiry. */
  ghost function SpentReqs(requests: seq<Request>, now: int): set<Request> {
    set r | r in requests && Spent(r, now)
  }

  /** The addresses whose request may be sent again, or expired. */
  ghost function DueIps(requests: seq<Request>, now: int): set<Ip> {
    set r | r in requests && Due(r, now) :: r.ip
  }

  /** Those of a set of requests whose address is not among the given ones. */
  ghost function Keep(spent: set<Request>, gone: set<Ip>): set<Request> {
    set r | r in spent && r.ip !in gone
  }

  /** One of the spent requests is for `ip`. */
  ghost predicate Stuck(spent: set<Request>, ip: Ip) {
    exists r <- spent :: r.ip == ip
  }

  ghost function IpSet(requests: seq<Request>): set<Ip> {
    set r | r in requests :: r.ip
  }

  // ----- the history ---------------------------------------------------------------------------

  function Waited(log: seq<Departure>): multiset<Packet> {
    if log == [] then multiset{} else Waited(log[..|log| - 1]) + multiset{log[|log| - 1].packet}
  }

  function AnsweredPackets(log: seq<Answer>): multiset<Packet> {
    if log == [] then multiset{} else AnsweredPackets(log[..|log| - 1]) + multiset{log[|log| - 1].waited}
  }

  /** Left with the MAC address some reply gave for its next hop. */
  predicate DepartureOk(rt: Router, d: Departure, replies: seq<Reply>) {
    RoutedVia(rt, d.packet, d.hop) && Reply(d.hop, d.mac) in replies
  }

  /** The message goes to the sender of the packet that waited, and was sent or queued. */
  ghost predicate AnswerOk(a: Answer, log: Log) {
    && a.icmp.dst == a.waited.src && a.icmp.ttl == 255
    && (a.icmp in log.queued || exists d <- log.direct :: d.packet == a.icmp && d.ttl == 255)
  }

  /** Expired after exactly five sends, ten seconds or more after the first, with every packet answered. */
  ghost predicate ExpiryOk(e: Expiry, log: Log) {
    && |e.request.sends| == 5 && Spaced(e.request.sends)
    && e.time - e.request.sends[0] >= 10
    && forall p <- e.request.packets :: exists a <- log.answered :: a.waited == p
  }

  ghost predicate LogOk(rt: Router, log: Log) {
    && (forall i, j | 0 <= i < j < |log.queued| :: log.queued[i].id < log.queued[j].id)
    && (forall p <- log.queued :: p.id < log.nextId)
    && (forall d <- log.flushed :: DepartureOk(rt, d, log.replies) && d.ttl == FlushTtl(d.packet.ttl))
    && (forall d <- log.direct :: DepartureOk(rt, d, log.replies))
    && (forall a <- log.answered :: AnswerOk(a, log))
    && (forall e <- log.expired :: ExpiryOk(e, log))
  }

  ghost predicate EntriesOk(entries: seq<Entry>, replies: seq<Reply>) {
    |entries| == 100 && forall e <- entries :: e.valid ==> Reply(e.ip, e.mac) in replies
  }

  /** Every queued packet is pending, sent or answered; `walked` are answered but still in the list. */
  ghost predicate Balanced(st: State, walked: multiset<Packet>) {
    multiset(st.log.queued) + walked
    == Pending(st.requests) + Waited(st.log.flushed) + AnsweredPackets(st.log.answered)
  }

  ghost predicate InvWith(rt: Router, st: State, walked: multiset<Packet>) {
    && RequestsOk(rt, st.requests) && LogOk(rt, st.log)
    && EntriesOk(st.entries, st.log.replies) && Balanced(st, walked)
  }

  ghost predicate Inv(rt: Router, st: State) {
    InvWith(rt, st, multiset{})
  }

  // ----- list operations -----------------------------------------------------------------------

  lemma {:induction false} PendingConcat(a: seq<Request>, b: seq<Request>)
    ensures Pending(a + b) == Pending(a) + Pending(b)
  {
    if a == [] {
      assert a + b == b;
    } else {
      assert (a + b)[1..] == a[1..] + b;
      PendingConcat(a[1..], b);
    }
  }

  /** The list cut at one request. */
  lemma PendingAt(requests: seq<Request>, k: nat)
    requires k < |requests|
    ensures Pending(requests)
         == Pending(requests[..k]) + multiset(requests[k].packets) + Pending(requests[k + 1..])
  {
    assert requests == requests[..k] + requests[k..];
    assert requests[k..][1..] == requests[k + 1..];
    PendingConcat(requests[..k], requests[k..]);
  }

  lemma Cancel(a: multiset<Packet>, b: multiset<Packet>, c: multiset<Packet>)
    requires a + c == b + c
    ensures a == b
  {
    forall p
      ensures a[p] == b[p]
    {
      assert (a + c)[p] == (b + c)[p];
    }
  }

  lemma IndexOfUnique(requests: seq<Request>, k: nat)
    requires UniqueIps(requests) && k < |requests|
    ensures IndexOf(requests, requests[k].ip) == k
  {
  }

  /** One request replaced by another for the same address. */
  lemma ReplaceEffect(rt: Router, requests: seq<Request>, k: nat, r: Request, now: int)
    requires RequestsOk(rt, requests) && k < |requests|
    requires r.ip == requests[k].ip && RequestOk(rt, r)
    ensures var after := requests[k := r];
            && RequestsOk(rt, after)
            && Pending(after) + multiset(requests[k].packets) == Pending(requests) + multiset(r.packets)
            && IpSet(after) == IpSet(requests)
            && DueIps(after, now) <= DueIps(requests, now) + (if Due(r, now) then {r.ip} else {})
            && (!Due(r, now) ==> r.ip !in DueIps(after, now))
            && Keep(SpentReqs(after, now), {r.ip}) == Keep(SpentReqs(requests, now), {r.ip})
    ensures !Spent(requests[k], now) && !Spent(r, now) ==> SpentReqs(requests[k := r], now) == SpentReqs(requests, now)
  {
    hide RequestOk, Spent, Pending, Due;
    var after := requests[k := r];
    assert after[..k] == requests[..k] && after[k + 1..] == requests[k + 1..];
    PendingAt(requests, k);
    PendingAt(after, k);
    forall x
      ensures x in after ==> x == r || (x in requests && x.ip != r.ip)
      ensures x in requests ==> x == requests[k] || (x in after && x.ip != r.ip)
    {
      if x in requests {
        var i :| 0 <= i < |requests| && requests[i] == x;
        assert i == k || after[i] == x;
      }
    }
    assert IpSet(after) == IpSet(requests) by {
      assert after[k] in after && requests[k] in requests;
    }
    if !Spent(requests[k], now) && !Spent(r, now) {
      assert SpentReqs(after, now) == SpentReqs(requests, now);
    }
  }

  lemma QueueReqEffect(rt: Router, requests: seq<Request>, ip: Ip, p: Packet, now: int)
    requires RequestsOk(rt, requests) && RoutedVia(rt, p, ip)
    ensures var after := QueueReq(requests, ip, p);
            && RequestsOk(rt, after)
            && Pending(after) == Pending(requests) + multiset{p}
            && IpSet(after) == IpSet(requests) + {ip}
            && DueIps(after, now) <= DueIps(requests, now) + {ip}
            && Keep(SpentReqs(after, now), {ip}) == Keep(SpentReqs(requests, now), {ip})
    ensures !Stuck(SpentReqs(requests, now), ip) ==> SpentReqs(QueueReq(requests, ip, p), now) == SpentReqs(requests, now)
  {
    var k := IndexOf(requests, ip);
    if k < |requests| {
      QueueOnOld(rt, requests, k, p, now);
    } else {
      QueueOnNew(rt, requests, ip, p, now);
    }
  }

  lemma QueueOnOld(rt: Router, requests: seq<Request>, k: nat, p: Packet, now: int)
    requires RequestsOk(rt, requests) && k < |requests| && RoutedVia(rt, p, requests[k].ip)
    ensures var r := requests[k]; var after := requests[k := r.(packets := [p] + r.packets)];
            && RequestsOk(rt, after)
            && Pending(after) == Pending(requests) + multiset{p}
            && IpSet(after) == IpSet(requests) + {r.ip}
            && DueIps(after, now) <= DueIps(requests, now) + {r.ip}
            && Keep(SpentReqs(after, now), {r.ip}) == Keep(SpentReqs(requests, now), {r.ip})
            && (!Stuck(SpentReqs(requests, now), r.ip) ==> SpentReqs(after, now) == SpentReqs(requests, now))
  {
    hide RoutedVia, Pending;
    var r := requests[k];
    var r' := r.(packets := [p] + r.packets);
    assert RequestOk(rt, r);
    ReplaceEffect(rt, requests, k, r', now);
    assert multiset(r'.packets) == multiset{p} + multiset(r.packets);
    Cancel(Pending(requests[k := r']), Pending(requests) + multiset{p}, multiset(r.packets));
    assert r in requests;
  }

  lemma QueueOnNew(rt: Router, requests: seq<Request>, ip: Ip, p: Packet, now: int)
    requires RequestsOk(rt, requests) && RoutedVia(rt, p, ip)
    requires forall r <- requests :: r.ip != ip
    ensures var after := [Request(ip, 0, 0, [p], [])] + requests;
            && RequestsOk(rt, after)
            && Pending(after) == Pending(requests) + multiset{p}
            && IpSet(after) == IpSet(requests) + {ip}
            && DueIps(after, now) <= DueIps(requests, now) + {ip}
            && SpentReqs(after, now) == SpentReqs(requests, now)
  {
    hide RoutedVia;
    var r := Request(ip, 0, 0, [p], []);
    var after := [r] + requests;
    assert after[1..] == requests && after[0] == r;
    assert RequestOk(rt, r);
    assert !Spent(r, now);
    assert forall x :: x in after <==> x == r || x in requests;
  }

  /** The request for `ip` after `p` was queued on it: `p` comes first, nothing was sent. */
  lemma QueuedAt(requests: seq<Request>, ip: Ip, p: Packet)
    ensures var after := QueueReq(requests, ip, p);
            var k, old_k := IndexOf(after, ip), IndexOf(requests, ip);
            && k < |after| && after[k].ip == ip && |after[k].packets| > 0 && after[k].packets[0] == p
            && (if old_k < |requests| then after[k] == requests[old_k].(packets := [p] + requests[old_k].packets)
                else after[k] == Request(ip, 0, 0, [p], []))
  {
    var after, k := QueueReq(requests, ip, p), IndexOf(requests, ip);
    if k < |requests| {
      assert forall i | 0 <= i < k :: after[i].ip == requests[i].ip;
      assert after[k].ip == ip;
    }
  }

  lemma UnlinkMembers(requests: seq<Request>, k: nat)
    requires UniqueIps(requests) && k < |requests|
    ensures var after := requests[..k] + requests[k + 1..];
            && Unlink(requests, requests[k].ip) == after
            && UniqueIps(after)
            && (forall x <- after :: x in requests && x.ip != requests[k].ip)
            && (forall x <- requests :: x.ip != requests[k].ip ==> x in after)
  {
    IndexOfUnique(requests, k);
    var after := requests[..k] + requests[k + 1..];
    assert forall i | 0 <= i < |after| :: after[i] == requests[if i < k then i else i + 1];
    forall x | x in requests && x.ip != requests[k].ip
      ensures x in after
    {
      var i :| 0 <= i < |requests| && requests[i] == x;
      if i < k {
        assert after[i] == x;
      } else {
        assert after[i - 1] == x;
      }
    }
  }

  lemma OnlyOneFor(requests: seq<Request>, k: nat)
    requires UniqueIps(requests) && k < |requests|
    ensures forall x <- requests :: x.ip == requests[k].ip ==> x == requests[k]
  {
  }

  lemma UnlinkEffect(rt: Router, requests: seq<Request>, k: nat, now: int)
    requires RequestsOk(rt, requests) && k < |requests|
    ensures var r := requests[k]; var after := Unlink(requests, r.ip);
            && RequestsOk(rt, after)
            && Pending(after) + multiset(r.packets) == Pending(requests)
            && IpSet(after) == IpSet(requests) - {r.ip}
            && DueIps(after, now) <= DueIps(requests, now) - {r.ip}
            && SpentReqs(after, now) == SpentReqs(requests, now) - {r}
  {
    hide RequestOk, Spent, Due, Pending, Unlink, UniqueIps;
    var r := requests[k];
    UnlinkMembers(requests, k);
    OnlyOneFor(requests, k);
    PendingAt(requests, k);
    PendingConcat(requests[..k], requests[k + 1..]);
  }

  // ----- one request handled -------------------------------------------------------------------

  /** What the log of one operation keeps of the log before. */
  ghost predicate Extends(before: Log, after: Log) {
    && before.queued <= after.queued && before.flushed <= after.flushed && before.direct <= after.direct
    && before.answered <= after.answered && before.expired <= after.expired && before.replies <= after.replies
    && before.nextId <= after.nextId
  }

  /** A broadcast needs a request with sends left; it asks for the destination of the newest packet and
      changes nothing but that request's counters. */
  lemma SendQueryEffect(rt: Router, st: State, k: nat, now: int, walked: multiset<Packet>)
    requires InvWith(rt, st, walked) && k < |st.requests|
    requires Due(st.requests[k], now) && st.requests[k].timesSent < MAX_SENDS
    ensures var r := SendQuery(rt, st, k, now);
            && r.Some? && InvWith(rt, r.value, walked)
            && IpSet(r.value.requests) == IpSet(st.requests)
            && DueIps(r.value.requests, now) <= DueIps(st.requests, now) - {st.requests[k].ip}
            && SpentReqs(r.value.requests, now) == SpentReqs(st.requests, now)
    ensures st.requests[k].packets != []
    ensures var q := st.requests[k];
            var sentAgain := q.(sent := now, timesSent := q.timesSent + 1, sends := q.sends + [now]);
            SendQuery(rt, st, k, now)
            == Some(State(st.entries, st.requests[k := sentAgain],
                          st.log.(queries := st.log.queries + [Query(q.ip, q.packets[0].dst, now)])))
  {
    hide LogOk, EntriesOk, Pending, Waited, AnsweredPackets;
    var r := st.requests[k];
    assert RequestOk(rt, r) && RoutedVia(rt, r.packets[0], r.ip);
    ResentOk(rt, r, now);
    ReplaceEffect(rt, st.requests, k, Resent(r, now), now);
    Cancel(Pending(st.requests[k := Resent(r, now)]), Pending(st.requests), multiset(r.packets));
    LogIgnoresQueries(rt, st.log, SendQuery(rt, st, k, now).value.log);
  }

  lemma LogIgnoresQueries(rt: Router, log: Log, after: Log)
    requires LogOk(rt, log) && after == log.(queries := after.queries)
    ensures LogOk(rt, after)
  {
    hide RoutedVia;
    forall a <- after.answered ensures AnswerOk(a, after) { assert AnswerOk(a, log); }
    forall e <- after.expired ensures ExpiryOk(e, after) { assert ExpiryOk(e, log); }
  }

  lemma ResentOk(rt: Router, r: Request, now: int)
    requires RequestOk(rt, r) && Due(r, now) && r.timesSent < MAX_SENDS
    ensures RequestOk(rt, Resent(r, now))
  {
    hide RoutedVia;
  }

  lemma OkLater(log: Log, after: Log)
    requires Extends(log, after)
    ensures forall a :: AnswerOk(a, log) ==> AnswerOk(a, after)
    ensures forall e :: ExpiryOk(e, log) ==> ExpiryOk(e, after)
  {
    forall a | AnswerOk(a, log)
      ensures AnswerOk(a, after)
    {
      assert a.icmp in log.queued ==> a.icmp in after.queued;
      assert forall d <- log.direct :: d in after.direct;
    }
    forall e | ExpiryOk(e, log)
      ensures ExpiryOk(e, after)
    {
      assert forall a <- log.answered :: a in after.answered;
    }
  }

  /** The search finds the only request for an address that has one. */
  lemma OnlyOneAt(requests: seq<Request>, ip: Ip)
    requires UniqueIps(requests) && ip in IpSet(requests)
    ensures var k := IndexOf(requests, ip);
            k < |requests| && requests[k] in requests && forall x <- requests :: x.ip == ip ==> x == requests[k]
  {
    var k := IndexOf(requests, ip);
    var r :| r in requests && r.ip == ip;
    OnlyOneFor(requests, k);
  }

  // ----- one packet answered -------------------------------------------------------------------

  function Icmp(rt: Router, log: Log, hop: Ip, p: Packet): Packet
    requires rt.Valid() && Best(rt.table, hop).Some?
  {
    Packet(log.nextId, OwnAddress(rt, hop), p.src, INIT_TTL)
  }

  function WithAnswer(log: Log, a: Answer): Log {
    log.(nextId := log.nextId + 1, answered := log.answered + [a])
  }

  /** The log after an answer that could leave at once, and after one that had to be queued. */
  lemma AnswerLogged(rt: Router, log: Log, a: Answer, d: Departure)
    requires LogOk(rt, log)
    requires a.icmp.id == log.nextId && a.icmp.dst == a.waited.src && a.icmp.ttl == INIT_TTL
    ensures d.packet == a.icmp && d.ttl == INIT_TTL && DepartureOk(rt, d, log.replies)
        ==> LogOk(rt, WithAnswer(log, a).(direct := log.direct + [d]))
    ensures LogOk(rt, WithAnswer(log, a).(queued := log.queued + [a.icmp]))
    ensures AnsweredPackets(log.answered + [a]) == AnsweredPackets(log.answered) + multiset{a.waited}
  {
    hide DepartureOk, FlushTtl;
    assert (log.answered + [a])[..|log.answered|] == log.answered;
    if d.packet == a.icmp && d.ttl == INIT_TTL && DepartureOk(rt, d, log.replies) {
      SentLogOk(rt, log, a, d);
    }
    QueuedLogOk(rt, log, a);
  }

  lemma SentLogOk(rt: Router, log: Log, a: Answer, d: Departure)
    requires LogOk(rt, log)
    requires a.icmp.id == log.nextId && a.icmp.dst == a.waited.src && a.icmp.ttl == INIT_TTL
    requires d.packet == a.icmp && d.ttl == INIT_TTL && DepartureOk(rt, d, log.replies)
    ensures LogOk(rt, WithAnswer(log, a).(direct := log.direct + [d]))
  {
    var after := WithAnswer(log, a).(direct := log.direct + [d]);
    OkLater(log, after);
    assert AnswerOk(a, after) by {
      assert after.direct[|log.direct|] == d;
    }
    hide DepartureOk, FlushTtl, AnswerOk, ExpiryOk;
  }

  lemma QueuedLogOk(rt: Router, log: Log, a: Answer)
    requires LogOk(rt, log)
    requires a.icmp.id == log.nextId && a.icmp.dst == a.waited.src && a.icmp.ttl == INIT_TTL
    ensures LogOk(rt, WithAnswer(log, a).(queued := log.queued + [a.icmp]))
  {
    var after := WithAnswer(log, a).(queued := log.queued + [a.icmp]);
    OkLater(log, after);
    assert AnswerOk(a, after) by {
      assert after.queued[|log.queued|] == a.icmp;
    }
    hide DepartureOk, FlushTtl, AnswerOk, ExpiryOk;
  }

  /** A cached MAC address came from a reply. */
  lemma {:induction false} LookupOk(entries: seq<Entry>, replies: seq<Reply>, ip: Ip)
    requires forall e <- entries :: e.valid ==> Reply(e.ip, e.mac) in replies
    ensures Lookup(entries, ip).Some? ==> Reply(ip, Lookup(entries, ip).value) in replies
  {
    if entries != [] {
      LookupOk(entries[..|entries| - 1], replies, ip);
    }
  }
}
