/**
 * The ARP cache and the list of pending ARP requests, as functions on values. Every operation of
 * sr_arpcache.c, and the two places of sr_router.c that use it, is a function from state to state.
 * `None` is a run-time fault of the C code: a null route or packet pointer that is dereferenced, a
 * request that is no longer in the list, or a recursive call that comes back to a request whose expiry
 * is under way (it would walk the same packets again, and never return).
 */
module ArpSpec {
  import opened Bytes
  import opened Options
  import opened RoutingTable

  const CACHE_SIZE := 100
  const CACHE_TIMEOUT := 15
  const MAX_SENDS := 5
  const INIT_TTL := 255

  type Mac = nat

  /** An IP packet: what the machine looks at, and a serial number that tells packets apart. */
  datatype Packet = Packet(id: nat, src: Ip, dst: Ip, ttl: nat)

  /** struct sr_arpreq; `sends` is the history of its broadcasts. */
  datatype Request = Request(ip: Ip, sent: int, timesSent: nat, packets: seq<Packet>, sends: seq<int>)

  /** struct sr_arpentry. */
  datatype Entry = Entry(valid: bool, ip: Ip, mac: Mac, added: int)

  /** The routing table and the address of every interface it names. */
  datatype Router = Router(table: seq<Route>, address: map<nat, Ip>) {
    predicate Valid() {
      forall r <- table :: r.iface in address
    }
  }

  /** An IP packet on the wire, with the time to live and destination MAC it left with. */
  datatype Departure = Departure(packet: Packet, hop: Ip, mac: Mac, ttl: nat)

  /** A waiting packet and the host-unreachable message that answers it. */
  datatype Answer = Answer(waited: Packet, icmp: Packet)

  datatype Query = Query(ip: Ip, target: Ip, time: int)

  datatype Expiry = Expiry(request: Request, time: int)

  datatype Reply = Reply(ip: Ip, mac: Mac)

  /** What has happened so far. */
  datatype Log = Log(nextId: nat, queued: seq<Packet>, flushed: seq<Departure>, direct: seq<Departure>,
                     answered: seq<Answer>, queries: seq<Query>, expired: seq<Expiry>, replies: seq<Reply>)

  datatype State = State(entries: seq<Entry>, requests: seq<Request>, log: Log)

  // ----- the cache -----------------------------------------------------------------------------

  predicate Hit(e: Entry, ip: Ip) {
    e.valid && e.ip == ip
  }

  /** sr_arpcache_lookup: the last valid entry for `ip`. */
  function Lookup(entries: seq<Entry>, ip: Ip): Option<Mac> {
    if entries == [] then None
    else
      var last := entries[|entries| - 1];
      if Hit(last, ip) then Some(last.mac) else Lookup(entries[..|entries| - 1], ip)
  }

  /** The first slot that holds no valid entry. */
  function FreeSlot(entries: seq<Entry>): (k: nat)
    ensures k <= |entries|
    ensures forall j | 0 <= j < k :: entries[j].valid
    ensures k < |entries| ==> !entries[k].valid
  {
    if entries == [] || !entries[0].valid then 0 else 1 + FreeSlot(entries[1..])
  }

  /** A full cache takes no new entry. */
  function Learn(entries: seq<Entry>, ip: Ip, mac: Mac, now: int): seq<Entry> {
    var k := FreeSlot(entries);
    if k < |entries| then entries[k := Entry(true, ip, mac, now)] else entries
  }

  function Aged(e: Entry, now: int): Entry {
    if e.valid && now - e.added > CACHE_TIMEOUT then e.(valid := false) else e
  }

  function Age(entries: seq<Entry>, now: int): (r: seq<Entry>)
    ensures |r| == |entries| && forall k | 0 <= k < |r| :: r[k] == Aged(entries[k], now)
  {
    if entries == [] then [] else [Aged(entries[0], now)] + Age(entries[1..], now)
  }

  // ----- the list of requests ------------------------------------------------------------------

  function IndexOf(requests: seq<Request>, ip: Ip): (k: nat)
    ensures k <= |requests|
    ensures forall j | 0 <= j < k :: requests[j].ip != ip
    ensures k < |requests| ==> requests[k].ip == ip
  {
    if requests == [] || requests[0].ip == ip then 0 else 1 + IndexOf(requests[1..], ip)
  }

  /** sr_arpcache_queuereq. */
  function QueueReq(requests: seq<Request>, ip: Ip, p: Packet): seq<Request> {
    var k := IndexOf(requests, ip);
    if k < |requests| then requests[k := requests[k].(packets := [p] + requests[k].packets)]
    else [Request(ip, 0, 0, [p], [])] + requests
  }

  /** sr_arpreq_destroy, and the unlinking in sr_arpcache_insert. */
  function Unlink(requests: seq<Request>, ip: Ip): seq<Request> {
    var k := IndexOf(requests, ip);
    if k < |requests| then requests[..k] + requests[k + 1..] else requests
  }

  function Ips(requests: seq<Request>): (ips: seq<Ip>)
    ensures |ips| == |requests| && forall k | 0 <= k < |ips| :: ips[k] == requests[k].ip
  {
    if requests == [] then [] else [requests[0].ip] + Ips(requests[1..])
  }

  /** More than one second has passed since the last send. */
  predicate Due(r: Request, now: int) {
    now - r.sent > 1
  }

  /** Due, with all sends used up: the next call expires the request. */
  predicate Spent(r: Request, now: int) {
    Due(r, now) && r.timesSent >= MAX_SENDS
  }

  /** The addresses whose request the next call would expire. */
  function SpentIps(requests: seq<Request>, now: int): set<Ip> {
    set r | r in requests && Spent(r, now) :: r.ip
  }

  // ----- handling one request ------------------------------------------------------------------

  function Enqueue(st: State, hop: Ip, p: Packet): State {
    st.(requests := QueueReq(st.requests, hop, p), log := st.log.(queued := st.log.queued + [p]))
  }

  function Resent(r: Request, now: int): Request {
    r.(sent := now, timesSent := r.timesSent + 1, sends := r.sends + [now])
  }

  /** Broadcasts an ARP request for the destination of the newest waiting packet. */
  function SendQuery(rt: Router, st: State, k: nat, now: int): Option<State>
    requires k < |st.requests|
  {
    var r := st.requests[k];
    if r.packets == [] || Best(rt.table, r.packets[0].dst).None? then None
    else
      Some(st.(requests := st.requests[k := Resent(r, now)],
               log := st.log.(queries := st.log.queries + [Query(r.ip, r.packets[0].dst, now)])))
  }

  /** The address a message leaves with when it reports about packets for `hop`. */
  function OwnAddress(rt: Router, hop: Ip): Ip
    requires rt.Valid() && Best(rt.table, hop).Some?
  {
    RouteIsInTable(rt.table, hop);
    rt.address[Best(rt.table, hop).value.iface]
  }

  lemma RouteIsInTable(table: seq<Route>, ip: Ip)
    ensures Best(table, ip).Some? ==> Best(table, ip).value in table
  {
    BestIsMaximal(table, ip);
  }

  /**
   * The recursive call of sr_arpcache_handle_arpreq. `spare` holds the addresses of the requests that
   * are spent and not being expired further up; expiring one of the others again would never end.
   */
  function HandleNested(rt: Router, st: State, ip: Ip, now: int, spare: set<Ip>): Option<State>
    requires rt.Valid()
    decreases |spare|, 0, 0
  {
    var k := IndexOf(st.requests, ip);
    if k == |st.requests| then None
    else if !Due(st.requests[k], now) then Some(st)
    else if st.requests[k].timesSent < MAX_SENDS then SendQuery(rt, st, k, now)
    else if ip in spare then Expire(rt, st, st.requests[k], now, spare - {ip})
    else None
  }

  /** The host-unreachable message for one packet waiting on `hop`: sent if possible, else queued. */
  function AnswerOne(rt: Router, st: State, hop: Ip, p: Packet, now: int, spare: set<Ip>): Option<State>
    requires rt.Valid()
    decreases |spare|, 1, 0
  {
    if Best(rt.table, hop).None? || Best(rt.table, p.src).None? then None
    else
      var icmp := Packet(st.log.nextId, OwnAddress(rt, hop), p.src, INIT_TTL);
      var noted := st.(log := st.log.(nextId := st.log.nextId + 1, answered := st.log.answered + [Answer(p, icmp)]));
      var gw := Best(rt.table, p.src).value.gw;
      var mac := Lookup(st.entries, gw);
      if mac.Some? then
        Some(noted.(log := noted.log.(direct := noted.log.direct + [Departure(icmp, gw, mac.value, INIT_TTL)])))
      else
        HandleNested(rt, Enqueue(noted, gw, icmp), gw, now, spare)
  }

  function AnswerAll(rt: Router, st: State, hop: Ip, packets: seq<Packet>, now: int, spare: set<Ip>): Option<State>
    requires rt.Valid()
    decreases |spare|, 2, |packets|
  {
    if packets == [] then Some(st)
    else
      var front := AnswerAll(rt, st, hop, packets[..|packets| - 1], now, spare);
      if front.None? then None else AnswerOne(rt, front.value, hop, packets[|packets| - 1], now, spare)
  }

  /** Every waiting packet is answered, then the request is destroyed. */
  function Expire(rt: Router, st: State, r: Request, now: int, spare: set<Ip>): Option<State>
    requires rt.Valid()
    decreases |spare|, 3, 0
  {
    var walked := AnswerAll(rt, st, r.ip, r.packets, now, spare);
    if walked.None? then None
    else
      var s := walked.value;
      Some(s.(requests := Unlink(s.requests, r.ip), log := s.log.(expired := s.log.expired + [Expiry(r, now)])))
  }

  /** sr_arpcache_handle_arpreq. */
  function HandleReq(rt: Router, st: State, ip: Ip, now: int): Option<State>
    requires rt.Valid()
  {
    HandleNested(rt, st, ip, now, SpentIps(st.requests, now))
  }

  /** The addresses whose request was destroyed between two states. */
  function Gone(before: State, after: State): set<Ip> {
    Since(before.log.expired, after.log.expired)
  }

  function Since(earlier: seq<Expiry>, expired: seq<Expiry>): set<Ip> {
    set e | e in expired[Min(|earlier|, |expired|)..] :: e.request.ip
  }

  /** The addresses that are left. */
  function Alive(ips: seq<Ip>, gone: set<Ip>): (r: seq<Ip>)
    ensures |r| <= |ips| && forall ip :: ip in r <==> ip in ips && ip !in gone
  {
    if ips == [] then [] else (if ips[0] in gone then [] else [ips[0]]) + Alive(ips[1..], gone)
  }

  /**
   * sr_arpcache_sweepreqs, from the request for `ips[0]` to the end of the list: the pointer to the next
   * request is saved before the call, which may destroy that request; others it destroys are not met.
   */
  function Sweep(rt: Router, st: State, ips: seq<Ip>, now: int): Option<State>
    requires rt.Valid()
    decreases |ips|
  {
    if ips == [] then Some(st)
    else
      var handled := HandleReq(rt, st, ips[0], now);
      if handled.None? then None
      else
        var gone := Gone(st, handled.value);
        if |ips| > 1 && ips[1] in gone then None else Sweep(rt, handled.value, Alive(ips[1..], gone), now)
  }

  // ----- the steps of the router ---------------------------------------------------------------

  /** An 8-bit time to live, less one. */
  function Decrement(ttl: nat): nat {
    (ttl + 255) % 256
  }

  /** The body of sr_arpcache_timeout. */
  function Tick(rt: Router, st: State, now: int): Option<State>
    requires rt.Valid()
  {
    Sweep(rt, st.(entries := Age(st.entries, now)), Ips(st.requests), now)
  }

  /**
   * A packet on its way out: sent at once if its next hop is resolved, else queued. `own` marks the
   * messages the router builds itself, which leave with the time to live they were built with.
   */
  function Submit(rt: Router, st: State, src: Ip, dst: Ip, ttl: nat, own: bool, now: int): Option<State>
    requires rt.Valid()
  {
    var route := Best(rt.table, dst);
    if route.None? then Some(st)
    else
      var gw := route.value.gw;
      var p := Packet(st.log.nextId, src, dst, ttl);
      var counted := st.(log := st.log.(nextId := st.log.nextId + 1));
      var mac := Lookup(st.entries, gw);
      if mac.Some? then
        var out := Departure(p, gw, mac.value, if own then ttl else Decrement(ttl));
        Some(counted.(log := counted.log.(direct := counted.log.direct + [out])))
      else
        HandleReq(rt, Enqueue(counted, gw, p), gw, now)
  }

  /** Packets that waited leave one hop older, unless the router built them itself. */
  function FlushTtl(ttl: nat): nat {
    if ttl != INIT_TTL then Decrement(ttl) else ttl
  }

  function FlushAll(rt: Router, log: Log, packets: seq<Packet>, hop: Ip, mac: Mac): Option<Log> {
    if packets == [] then Some(log)
    else
      var front := FlushAll(rt, log, packets[..|packets| - 1], hop, mac);
      var p := packets[|packets| - 1];
      if front.None? || Best(rt.table, p.dst).None? then None
      else
        var out := Departure(p, hop, mac, FlushTtl(p.ttl));
        Some(front.value.(flushed := front.value.flushed + [out]))
  }

  /** An ARP reply: sr_arpcache_insert, then everything that waited for it is sent. */
  function Receive(rt: Router, st: State, ip: Ip, mac: Mac, now: int): Option<State> {
    var k := IndexOf(st.requests, ip);
    var entries := Learn(st.entries, ip, mac, now);
    var log := st.log.(replies := st.log.replies + [Reply(ip, mac)]);
    if k == |st.requests| then Some(st.(entries := entries, log := log))
    else
      var flushed := FlushAll(rt, log, st.requests[k].packets, ip, mac);
      if flushed.None? then None else Some(State(entries, Unlink(st.requests, ip), flushed.value))
  }

  datatype Step =
    | Transit(src: Ip, dst: Ip, ttl: nat, now: int)
    | Own(src: Ip, dst: Ip, now: int)
    | Answered(ip: Ip, mac: Mac, now: int)
    | Timeout(now: int)

  function Apply(rt: Router, st: State, step: Step): Option<State>
    requires rt.Valid()
  {
    match step
    case Transit(src, dst, ttl, now) => Submit(rt, st, src, dst, ttl, false, now)
    case Own(src, dst, now) => Submit(rt, st, src, dst, INIT_TTL, true, now)
    case Answered(ip, mac, now) => Receive(rt, st, ip, mac, now)
    case Timeout(now) => Tick(rt, st, now)
  }

  /** sr_arpcache_init. */
  function Initial(): State {
    State(seq(CACHE_SIZE, _ => Entry(false, 0, 0, 0)), [], Log(0, [], [], [], [], [], [], []))
  }

  function Run(rt: Router, steps: seq<Step>): Option<State>
    requires rt.Valid()
  {
    if steps == [] then Some(Initial())
    else
      var front := Run(rt, steps[..|steps| - 1]);
      if front.None? then None else Apply(rt, front.value, steps[|steps| - 1])
  }
}
