/** struct sr_arpcache with its operations, updated in place, each proved equal to its step on values. */
module ArpCache {
  import opened Options
  import opened RoutingTable
  import Arp = ArpSpec

  class Cache {
    const router: Arp.Router
    const entries: array<Arp.Entry>
    var requests: seq<Arp.Request>
    /** What was sent, and what has happened: the wire and the history. */
    var log: Arp.Log

    ghost predicate Valid() {
      router.Valid() && entries.Length == Arp.CACHE_SIZE
    }

    ghost function View(): Arp.State
      reads this, entries
    {
      Arp.State(entries[..], requests, log)
    }

    /** sr_arpcache_init. */
    constructor (router: Arp.Router)
      requires router.Valid()
      ensures Valid() && fresh(entries) && this.router == router
      ensures View() == Arp.Initial()
    {
      this.router := router;
      entries := new Arp.Entry[Arp.CACHE_SIZE](_ => Arp.Entry(false, 0, 0, 0));
      requests := [];
      log := Arp.Log(0, [], [], [], [], [], [], []);
      new;
      assert entries[..] == Arp.Initial().entries;
    }

    /** sr_arpcache_lookup: scans every slot and keeps the last hit. */
    method LookupEntry(ip: Ip) returns (mac: Option<Arp.Mac>)
      requires Valid()
      ensures mac == Arp.Lookup(entries[..], ip)
    {
      mac := None;
      var i := 0;
      while i < Arp.CACHE_SIZE
        invariant 0 <= i <= Arp.CACHE_SIZE
        invariant mac == Arp.Lookup(entries[..i], ip)
      {
        assert entries[..i + 1][..i] == entries[..i];
        if entries[i].valid && entries[i].ip == ip {
          mac := Some(entries[i].mac);
        }
        i := i + 1;
      }
      assert entries[..i] == entries[..];
    }

    /** The search for a request, as in sr_arpcache_queuereq, sr_arpcache_insert and sr_arpreq_destroy. */
    method FindReq(ip: Ip) returns (k: nat)
      ensures k == Arp.IndexOf(requests, ip)
    {
      k := 0;
      while k < |requests| && requests[k].ip != ip
        invariant k <= |requests|
        invariant forall j | 0 <= j < k :: requests[j].ip != ip
      {
        k := k + 1;
      }
    }

    /** sr_arpcache_queuereq: on the request for `ip` if there is one, else on a new one at the head. */
    method QueueReq(ip: Ip, p: Arp.Packet)
      modifies this`requests, this`log
      ensures View() == Arp.Enqueue(old(View()), ip, p)
    {
      var k := FindReq(ip);
      if k < |requests| {
        requests := requests[k := requests[k].(packets := [p] + requests[k].packets)];
      } else {
        requests := [Arp.Request(ip, 0, 0, [p], [])] + requests;
      }
      log := log.(queued := log.queued + [p]);
    }

    /** sr_arpreq_destroy. */
    method Destroy(ip: Ip)
      modifies this`requests
      ensures requests == Arp.Unlink(old(requests), ip)
    {
      var k := FindReq(ip);
      if k < |requests| {
        requests := requests[..k] + requests[k + 1..];
      }
    }

    /** sr_arpcache_insert: takes the request for `ip` off the list and fills the first free slot. */
    method Insert(mac: Arp.Mac, ip: Ip, now: int) returns (req: Option<Arp.Request>)
      requires Valid()
      modifies this`requests, entries
      ensures requests == Arp.Unlink(old(requests), ip)
      ensures entries[..] == Arp.Learn(old(entries[..]), ip, mac, now)
      ensures var k := Arp.IndexOf(old(requests), ip);
              req == if k < |old(requests)| then Some(old(requests)[k]) else None
    {
      var k := FindReq(ip);
      req := None;
      if k < |requests| {
        req := Some(requests[k]);
        requests := requests[..k] + requests[k + 1..];
      }
      var i := 0;
      while i < Arp.CACHE_SIZE && entries[i].valid
        invariant 0 <= i <= Arp.CACHE_SIZE
        invariant forall j | 0 <= j < i :: entries[j].valid
      {
        i := i + 1;
      }
      if i != Arp.CACHE_SIZE {
        entries[i] := Arp.Entry(true, ip, mac, now);
      }
    }

    /** The retry branch of sr_arpcache_handle_arpreq. */
    method SendQuery(k: nat, now: int) returns (ok: bool)
      requires k < |requests|
      modifies this`requests, this`log
      ensures ok == Arp.SendQuery(router, old(View()), k, now).Some?
      ensures ok ==> View() == Arp.SendQuery(router, old(View()), k, now).value
    {
      var r := requests[k];
      if r.packets == [] {
        return false;
      }
      var route := FindLpmEntry(router.table, r.packets[0].dst);
      if route.None? {
        return false;
      }
      log := log.(queries := log.queries + [Arp.Query(r.ip, r.packets[0].dst, now)]);
      requests := requests[k := r.(sent := now, timesSent := r.timesSent + 1, sends := r.sends + [now])];
      ok := true;
    }

    /**
     * sr_arpcache_handle_arpreq as called from its own expiry branch. `spare` are the spent requests that
     * are not being expired further up; coming back to one of the others would never end.
     */
    method HandleNested(ip: Ip, now: int, spare: set<Ip>) returns (ok: bool)
      requires Valid()
      modifies this`requests, this`log
      ensures ok == Arp.HandleNested(router, old(View()), ip, now, spare).Some?
      ensures ok ==> View() == Arp.HandleNested(router, old(View()), ip, now, spare).value
      decreases |spare|, 0, 0
    {
      hide Arp.Expire, Arp.SendQuery;
      var k := FindReq(ip);
      if k == |requests| {
        return false;
      }
      if now - requests[k].sent <= 1 {
        ok := true;
      } else if requests[k].timesSent < Arp.MAX_SENDS {
        ok := SendQuery(k, now);
      } else if ip in spare {
        ok := Expire(requests[k], now, spare - {ip});
      } else {
        ok := false;
      }
    }

    /** The host-unreachable message for one waiting packet. */
    method AnswerOne(hop: Ip, p: Arp.Packet, now: int, spare: set<Ip>) returns (ok: bool)
      requires Valid()
      modifies this`requests, this`log
      ensures ok == Arp.AnswerOne(router, old(View()), hop, p, now, spare).Some?
      ensures ok ==> View() == Arp.AnswerOne(router, old(View()), hop, p, now, spare).value
      decreases |spare|, 1, 0
    {
      hide Arp.Lookup, Arp.QueueReq, Arp.HandleNested, Best;
      var own := FindLpmEntry(router.table, hop);
      if own.None? {
        return false;
      }
      var back := FindLpmEntry(router.table, p.src);
      if back.None? {
        return false;
      }
      Arp.RouteIsInTable(router.table, hop);
      var icmp := Arp.Packet(log.nextId, router.address[own.value.iface], p.src, Arp.INIT_TTL);
      log := log.(nextId := log.nextId + 1, answered := log.answered + [Arp.Answer(p, icmp)]);
      var mac := LookupEntry(back.value.gw);
      if mac.Some? {
        log := log.(direct := log.direct + [Arp.Departure(icmp, back.value.gw, mac.value, Arp.INIT_TTL)]);
        ok := true;
      } else {
        QueueReq(back.value.gw, icmp);
        ok := HandleNested(back.value.gw, now, spare);
      }
    }

    /** The expiry branch of sr_arpcache_handle_arpreq: answers every packet, then destroys the request. */
    method Expire(r: Arp.Request, now: int, spare: set<Ip>) returns (ok: bool)
      requires Valid()
      modifies this`requests, this`log
      ensures ok == Arp.Expire(router, old(View()), r, now, spare).Some?
      ensures ok ==> View() == Arp.Expire(router, old(View()), r, now, spare).value
      decreases |spare|, 2, 0
    {
      hide Arp.AnswerOne;
      ghost var before := View();
      var i := 0;
      assert r.packets[..0] == [];
      while i < |r.packets|
        invariant 0 <= i <= |r.packets|
        invariant Arp.AnswerAll(router, before, r.ip, r.packets[..i], now, spare) == Some(View())
      {
        assert r.packets[..i + 1][..i] == r.packets[..i];
        var answered := AnswerOne(r.ip, r.packets[i], now, spare);
        if !answered {
          AnswerAllStuck(router, before, r.ip, r.packets, i + 1, now, spare);
          return false;
        }
        i := i + 1;
      }
      assert r.packets[..i] == r.packets;
      Destroy(r.ip);
      log := log.(expired := log.expired + [Arp.Expiry(r, now)]);
      ok := true;
    }

    /** sr_arpcache_handle_arpreq, called from outside. */
    method HandleReq(ip: Ip, now: int) returns (ok: bool)
      requires Valid()
      modifies this`requests, this`log
      ensures ok == Arp.HandleReq(router, old(View()), ip, now).Some?
      ensures ok ==> View() == Arp.HandleReq(router, old(View()), ip, now).value
    {
      hide Arp.HandleNested, Arp.SpentIps;
      ok := HandleNested(ip, now, Arp.SpentIps(requests, now));
    }

    /** sr_arpcache_sweepreqs: the next request is remembered before the current one is handled. */
    method Sweep(now: int) returns (ok: bool)
      requires Valid()
      modifies this`requests, this`log
      ensures ok == Arp.Sweep(router, old(View()), Arp.Ips(old(requests)), now).Some?
      ensures ok ==> View() == Arp.Sweep(router, old(View()), Arp.Ips(old(requests)), now).value
    {
      hide Arp.HandleReq, Arp.Since, Arp.Alive;
      var rest := Arp.Ips(requests);
      while rest != []
        invariant Arp.Sweep(router, old(View()), Arp.Ips(old(requests)), now) == Arp.Sweep(router, View(), rest, now)
        decreases |rest|
      {
        ghost var before := View();
        var earlier := log.expired;
        var handled := HandleReq(rest[0], now);
        if !handled {
          return false;
        }
        var gone := Arp.Since(earlier, log.expired);
        if |rest| > 1 && rest[1] in gone {
          return false;
        }
        rest := Arp.Alive(rest[1..], gone);
      }
      ok := true;
    }

    /** The loop of sr_arpcache_timeout that invalidates old entries. */
    method AgeEntries(now: int)
      requires Valid()
      modifies entries
      ensures entries[..] == Arp.Age(old(entries[..]), now)
    {
      var i := 0;
      while i < Arp.CACHE_SIZE
        invariant 0 <= i <= Arp.CACHE_SIZE
        invariant forall j | 0 <= j < i :: entries[j] == Arp.Aged(old(entries[j]), now)
        invariant forall j | i <= j < Arp.CACHE_SIZE :: entries[j] == old(entries[j])
      {
        if entries[i].valid && now - entries[i].added > Arp.CACHE_TIMEOUT {
          entries[i] := entries[i].(valid := false);
        }
        i := i + 1;
      }
    }

    /** One round of sr_arpcache_timeout. */
    method Timeout(now: int) returns (ok: bool)
      requires Valid()
      modifies this`requests, this`log, entries
      ensures ok == Arp.Tick(router, old(View()), now).Some?
      ensures ok ==> View() == Arp.Tick(router, old(View()), now).value
    {
      hide Arp.Sweep;
      AgeEntries(now);
      ok := Sweep(now);
    }

    /** A packet on its way out: the lookup, and the queue if it misses. */
    method Submit(src: Ip, dst: Ip, ttl: nat, own: bool, now: int) returns (ok: bool)
      requires Valid()
      modifies this`requests, this`log
      ensures ok == Arp.Submit(router, old(View()), src, dst, ttl, own, now).Some?
      ensures ok ==> View() == Arp.Submit(router, old(View()), src, dst, ttl, own, now).value
    {
      hide Arp.Lookup, Arp.QueueReq, Arp.HandleReq, Best;
      var route := FindLpmEntry(router.table, dst);
      if route.None? {
        return true;
      }
      var gw := route.value.gw;
      var p := Arp.Packet(log.nextId, src, dst, ttl);
      log := log.(nextId := log.nextId + 1);
      var mac := LookupEntry(gw);
      if mac.Some? {
        var out := Arp.Departure(p, gw, mac.value, if own then ttl else Arp.Decrement(ttl));
        log := log.(direct := log.direct + [out]);
        ok := true;
      } else {
        QueueReq(gw, p);
        ok := HandleReq(gw, now);
      }
    }

    /** The ARP-reply branch of the router: insert, then flush what waited. */
    method Receive(ip: Ip, mac: Arp.Mac, now: int) returns (ok: bool)
      requires Valid()
      modifies this`requests, this`log, entries
      ensures ok == Arp.Receive(router, old(View()), ip, mac, now).Some?
      ensures ok ==> View() == Arp.Receive(router, old(View()), ip, mac, now).value
    {
      hide Arp.Learn, Best, Arp.FlushTtl;
      var req := Insert(mac, ip, now);
      log := log.(replies := log.replies + [Arp.Reply(ip, mac)]);
      if req.None? {
        return true;
      }
      ghost var noted := log;
      var packets := req.value.packets;
      var i := 0;
      assert packets[..0] == [];
      while i < |packets|
        invariant 0 <= i <= |packets|
        invariant entries[..] == Arp.Learn(old(entries[..]), ip, mac, now)
        invariant requests == Arp.Unlink(old(requests), ip)
        invariant Arp.FlushAll(router, noted, packets[..i], ip, mac) == Some(log)
      {
        assert packets[..i + 1][..i] == packets[..i];
        var route := FindLpmEntry(router.table, packets[i].dst);
        if route.None? {
          FlushAllStuck(router, noted, packets, i + 1, ip, mac);
          return false;
        }
        var p := packets[i];
        log := log.(flushed := log.flushed + [Arp.Departure(p, ip, mac, Arp.FlushTtl(p.ttl))]);
        i := i + 1;
      }
      assert packets[..i] == packets;
      ok := true;
    }
  }

  // ----- a walk that failed stays failed -------------------------------------------------------

  lemma {:induction false} AnswerAllStuck(rt: Arp.Router, st: Arp.State, hop: Ip, packets: seq<Arp.Packet>, i: nat, now: int, spare: set<Ip>)
    requires rt.Valid() && i <= |packets|
    requires Arp.AnswerAll(rt, st, hop, packets[..i], now, spare).None?
    ensures Arp.AnswerAll(rt, st, hop, packets, now, spare).None?
    decreases |packets|
  {
    hide Arp.AnswerOne;
    if i < |packets| {
      assert packets[..|packets| - 1][..i] == packets[..i];
      AnswerAllStuck(rt, st, hop, packets[..|packets| - 1], i, now, spare);
    } else {
      assert packets[..i] == packets;
    }
  }

  lemma {:induction false} FlushAllStuck(rt: Arp.Router, log: Arp.Log, packets: seq<Arp.Packet>, i: nat, hop: Ip, mac: Arp.Mac)
    requires i <= |packets|
    requires Arp.FlushAll(rt, log, packets[..i], hop, mac).None?
    ensures Arp.FlushAll(rt, log, packets, hop, mac).None?
  {
    if i < |packets| {
      assert packets[..|packets| - 1][..i] == packets[..i];
      FlushAllStuck(rt, log, packets[..|packets| - 1], i, hop, mac);
    } else {
      assert packets[..i] == packets;
    }
  }
}
