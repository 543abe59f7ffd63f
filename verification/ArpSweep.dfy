/** One round of the timeout thread over the list of requests: what it does, and when it fails. */
module ArpSweep {
  import opened Options
  import opened RoutingTable
  import opened ArpSpec
  import opened ArpInvariant
  import opened ArpExpiry
  import opened ArpFailure
  import opened ArpOrder
  import opened ArpHandling

  // ----- what is left of the list ----------------------------------------------------------------

  ghost predicate DistinctIps(ips: seq<Ip>) {
    forall i, j | 0 <= i < j < |ips| :: ips[i] != ips[j]
  }

  lemma {:induction false} AliveDistinct(ips: seq<Ip>, gone: set<Ip>)
    requires DistinctIps(ips)
    ensures DistinctIps(Alive(ips, gone))
  {
    if ips != [] {
      AliveDistinct(ips[1..], gone);
      assert ips[0] !in ips[1..];
    }
  }

  /** One request of the round has been handled: what the rest of the round may rely on. */
  lemma Handled(rt: Router, st: State, ips: seq<Ip>, now: int)
    requires rt.Valid() && Inv(rt, st) && ips != [] && DistinctIps(ips)
    requires forall ip <- ips :: ip in IpSet(st.requests)
    requires HandleReq(rt, st, ips[0], now).Some?
    ensures var h := HandleReq(rt, st, ips[0], now).value; var gone := Gone(st, h); var rest := Alive(ips[1..], gone);
            && Inv(rt, h) && Moved(st, h, now, SpentIps(st.requests, now))
            && DistinctIps(rest) && (forall ip <- rest :: ip in IpSet(h.requests))
            && ips[0] !in DueIps(h.requests, now)
            && (forall ip <- gone :: ip !in DueIps(h.requests, now))
            && (forall ip <- ips :: ip == ips[0] || ip in gone || ip in rest)
  {
    hide InvWith, HandleReq, Moved, SpentIps, Gone, DueIps;
    var h := HandleReq(rt, st, ips[0], now).value;
    HandleKeeps(rt, st, ips[0], now);
    AliveDistinct(ips[1..], Gone(st, h));
    MovedDue(st, h, now, SpentIps(st.requests, now));
    MovedPresent(st, h, now, SpentIps(st.requests, now));
    assert forall ip <- ips :: ip == ips[0] || ip in ips[1..];
    assert forall ip <- ips[1..] :: ip in ips;
    hide IpSet;
  }

  lemma MovedPresent(st: State, after: State, now: int, allowed: set<Ip>)
    requires Moved(st, after, now, allowed)
    ensures IpSet(st.requests) - Gone(st, after) <= IpSet(after.requests)
    ensures DueIps(after.requests, now) <= DueIps(st.requests, now)
    ensures Gone(st, after) <= SpentIps(st.requests, now)
    ensures SpentIps(after.requests, now) <= SpentIps(st.requests, now)
  {
    SpentIpsOf(st.requests, now);
    SpentIpsOf(after.requests, now);
    hide IpSet, DueIps, Gone, SpentIps, SpentReqs, Extends;
  }

  lemma MovedWider(st: State, after: State, now: int, allowed: set<Ip>, wider: set<Ip>)
    requires Moved(st, after, now, allowed) && allowed <= wider
    ensures Moved(st, after, now, wider)
  {
    hide IpSet, DueIps, Gone, SpentIps, SpentReqs, Extends, Recorded, News;
  }

  // ----- a round that comes to its end -----------------------------------------------------------

  /** The round leaves no request due, and has expired the spent ones in an order that their answers allow. */
  lemma {:induction false} SweepKeeps(rt: Router, st: State, ips: seq<Ip>, now: int)
    requires rt.Valid() && Inv(rt, st) && DistinctIps(ips) && forall ip <- ips :: ip in IpSet(st.requests)
    ensures var t := Sweep(rt, st, ips, now);
            t.Some? ==>
              && Inv(rt, t.value) && Moved(st, t.value, now, SpentIps(st.requests, now))
              && (forall ip <- ips :: ip !in DueIps(t.value.requests, now))
              && InOrder(rt, st.entries, SpentReqs(st.requests, now), News(st, t.value))
    decreases |ips|
  {
    var t := Sweep(rt, st, ips, now);
    hide *;
    SweepStep(rt, st, ips, now);
    if ips == [] {
      MovedQuietlyHere(st, now);
      NoNews(rt, st, st.entries, SpentReqs(st.requests, now), st);
    } else if t.Some? {
      var h := HandleReq(rt, st, ips[0], now).value;
      var rest := Alive(ips[1..], Gone(st, h));
      Handled(rt, st, ips, now);
      SweepKeeps(rt, h, rest, now);
      MovedPresent(st, h, now, SpentIps(st.requests, now));
      MovedPresent(h, t.value, now, SpentIps(h.requests, now));
      MovedWider(h, t.value, now, SpentIps(h.requests, now), SpentIps(st.requests, now));
      MovedBoth(st, h, t.value, now, SpentIps(st.requests, now));
      HandleOrder(rt, st, ips[0], now);
      RoundOrder(rt, st, h, t.value, now);
      SameEntries(st, h, now, SpentIps(st.requests, now));
    }
  }

  lemma SweepStep(rt: Router, st: State, ips: seq<Ip>, now: int)
    requires rt.Valid()
    ensures ips == [] ==> Sweep(rt, st, ips, now) == Some(st)
    ensures ips != [] ==>
              var h := HandleReq(rt, st, ips[0], now);
              && (Sweep(rt, st, ips, now).None? <==>
                    h.None? || (|ips| > 1 && ips[1] in Gone(st, h.value))
                    || Sweep(rt, h.value, Alive(ips[1..], Gone(st, h.value)), now).None?)
              && (Sweep(rt, st, ips, now).Some? ==>
                    h.Some? && Sweep(rt, st, ips, now) == Sweep(rt, h.value, Alive(ips[1..], Gone(st, h.value)), now))
  {
    hide HandleReq, Gone;
  }

  lemma MovedQuietlyHere(st: State, now: int)
    ensures Moved(st, st, now, SpentIps(st.requests, now))
  {
    MovedQuietly(st, st, now, SpentIps(st.requests, now));
  }

  lemma HandleOrder(rt: Router, st: State, ip: Ip, now: int)
    requires rt.Valid() && Inv(rt, st) && ip in IpSet(st.requests)
    ensures var h := HandleReq(rt, st, ip, now);
            h.Some? ==> InOrder(rt, st.entries, SpentReqs(st.requests, now), News(st, h.value))
  {
    NestedOrder(rt, st, ip, now, multiset{}, SpentIps(st.requests, now));
    HandleIs(rt, st, ip, now);
    hide *;
    InvIs(rt, st);
  }

  lemma RoundOrder(rt: Router, st: State, h: State, t: State, now: int)
    requires Inv(rt, st) && Moved(st, h, now, SpentIps(st.requests, now)) && Moved(h, t, now, SpentIps(st.requests, now))
    requires InOrder(rt, st.entries, SpentReqs(st.requests, now), News(st, h))
    requires InOrder(rt, h.entries, SpentReqs(h.requests, now), News(h, t))
    ensures InOrder(rt, st.entries, SpentReqs(st.requests, now), News(st, t))
  {
    var allowed := SpentIps(st.requests, now);
    InvIsUnique(rt, st, multiset{});
    hide *;
    SpentAreUnique(st.requests, now);
    MovedNews(st, h, now, allowed);
    MovedNews(h, t, now, allowed);
    NewsSplit(st, h, t);
    SameEntries(st, h, now, allowed);
    OrderConcat(rt, st.entries, SpentReqs(st.requests, now), News(st, h), SpentReqs(h.requests, now), News(h, t));
  }

  // ----- a round that fails ----------------------------------------------------------------------

  /** The requests that are destroyed while the one for `ip` is handled. */
  ghost function Taken(rt: Router, entries: seq<Entry>, spent: set<Request>, ip: Ip, own: bool): set<Ip>
    requires rt.Valid()
  {
    set x | x in spent && (exists r <- spent :: r.ip == ip && (x == r || Needs(rt, entries, spent, r, {x.ip}, own))) :: x.ip
  }

  /** The next request of the list, whose address has been saved, if it could be destroyed. */
  ghost function Saved(spent: set<Request>, ips: seq<Ip>): set<Ip> {
    if |ips| > 1 && Stuck(spent, ips[1]) then {ips[1]} else {}
  }

  /**
   * Somewhere in the list, a request that is still there when its turn comes cannot be expired, or not
   * without destroying the request that is next in the list.
   */
  ghost predicate Blocked(rt: Router, entries: seq<Entry>, spent: set<Request>, ips: seq<Ip>, own: bool)
    requires rt.Valid()
    decreases |ips|
  {
    ips != [] &&
    (|| (exists r <- spent :: r.ip == ips[0] && Needs(rt, entries, spent, r, Saved(spent, ips), own))
     || (var taken := Taken(rt, entries, spent, ips[0], own);
         Blocked(rt, entries, Keep(spent, taken), Alive(ips[1..], taken), own)))
  }

  lemma HandleTakes(rt: Router, st: State, ip: Ip, now: int, own: bool)
    requires rt.Valid() && Inv(rt, st) && ip in IpSet(st.requests) && HandleReq(rt, st, ip, now).Some?
    requires Regular(rt, st.entries, SpentReqs(st.requests, now), own)
    ensures Gone(st, HandleReq(rt, st, ip, now).value) == Taken(rt, st.entries, SpentReqs(st.requests, now), ip, own)
  {
    var spent, h := SpentReqs(st.requests, now), HandleReq(rt, st, ip, now).value;
    HandleKeeps(rt, st, ip, now);
    MovedPresent(st, h, now, SpentIps(st.requests, now));
    SpentIpsOf(st.requests, now);
    InvIsUnique(rt, st, multiset{});
    SpentAreUnique(st.requests, now);
    hide InvWith, HandleReq, SpentReqs, SpentIps, IpSet, DueIps, Moved, Gone, Needs, Regular, UniqueIps;
    if Stuck(spent, ip) {
      var r :| r in spent && r.ip == ip;
      forall x | x in spent
        ensures x.ip in Gone(st, h) <==> x == r || Needs(rt, st.entries, spent, r, {x.ip}, own)
      {
        if x != r {
          HandleFailsExactly(rt, st, r, {x.ip}, now, own);
        }
      }
      TakenIs(rt, st.entries, spent, r, own, Gone(st, h));
    } else {
      UnspentSucceeds(rt, st, ip, now);
    }
  }

  lemma TakenIs(rt: Router, entries: seq<Entry>, spent: set<Request>, r: Request, own: bool, gone: set<Ip>)
    requires rt.Valid() && OnePerIp(spent) && r in spent && forall ip <- gone :: Stuck(spent, ip)
    requires forall x <- spent :: x.ip in gone <==> x == r || Needs(rt, entries, spent, r, {x.ip}, own)
    ensures gone == Taken(rt, entries, spent, r.ip, own)
  {
    hide Needs;
    assert forall x | x in spent && x.ip == r.ip :: x == r;
    hide OnePerIp;
    forall ip
      ensures ip in gone <==> ip in Taken(rt, entries, spent, r.ip, own)
    {
      if ip in gone {
        var x :| x in spent && x.ip == ip;
      }
    }
  }

  /** The head of the list: its handling fails, or destroys the next one, exactly when it needs to. */
  lemma HeadFailsExactly(rt: Router, st: State, ips: seq<Ip>, now: int, own: bool)
    requires rt.Valid() && Inv(rt, st) && DistinctIps(ips) && ips != [] && ips[0] in IpSet(st.requests)
    requires Regular(rt, st.entries, SpentReqs(st.requests, now), own)
    ensures var h, spent := HandleReq(rt, st, ips[0], now), SpentReqs(st.requests, now);
            (h.None? || (|ips| > 1 && ips[1] in Gone(st, h.value)))
            <==> exists r <- spent :: r.ip == ips[0] && Needs(rt, st.entries, spent, r, Saved(spent, ips), own)
  {
    var spent, h := SpentReqs(st.requests, now), HandleReq(rt, st, ips[0], now);
    HandleKeeps(rt, st, ips[0], now);
    if h.Some? {
      MovedPresent(st, h.value, now, SpentIps(st.requests, now));
    }
    SpentIpsOf(st.requests, now);
    InvIsUnique(rt, st, multiset{});
    SpentAreUnique(st.requests, now);
    hide InvWith, HandleReq, SpentReqs, SpentIps, IpSet, DueIps, Moved, Gone, Needs, Regular, UniqueIps;
    if Stuck(spent, ips[0]) {
      var r :| r in spent && r.ip == ips[0];
      HandleFailsExactly(rt, st, r, Saved(spent, ips), now, own);
    } else {
      UnspentSucceeds(rt, st, ips[0], now);
    }
  }

  lemma RegularLater(rt: Router, st: State, h: State, now: int, allowed: set<Ip>, own: bool)
    requires rt.Valid() && Moved(st, h, now, allowed) && Regular(rt, st.entries, SpentReqs(st.requests, now), own)
    ensures Regular(rt, h.entries, SpentReqs(h.requests, now), own)
    ensures SpentReqs(h.requests, now) == Keep(SpentReqs(st.requests, now), Gone(st, h)) && h.entries == st.entries
  {
    hide SpentReqs, Gone, OwnAddress, WaitsOn, Extends;
    assert forall ip :: Stuck(SpentReqs(h.requests, now), ip) ==> Stuck(SpentReqs(st.requests, now), ip);
    hide Stuck;
  }

  /** With regular routes to the router itself, the round fails exactly when it is blocked. */
  lemma {:induction false} SweepFailsExactly(rt: Router, st: State, ips: seq<Ip>, now: int, own: bool)
    requires rt.Valid() && Inv(rt, st) && DistinctIps(ips) && forall ip <- ips :: ip in IpSet(st.requests)
    requires Regular(rt, st.entries, SpentReqs(st.requests, now), own)
    ensures Sweep(rt, st, ips, now).None? <==> Blocked(rt, st.entries, SpentReqs(st.requests, now), ips, own)
    decreases |ips|
  {
    SweepStep(rt, st, ips, now);
    if ips != [] {
      assert ips[0] in ips;
      HeadFailsExactly(rt, st, ips, now, own);
      if HandleReq(rt, st, ips[0], now).Some? {
        var h := HandleReq(rt, st, ips[0], now).value;
        Handled(rt, st, ips, now);
        HandleTakes(rt, st, ips[0], now, own);
        RegularLater(rt, st, h, now, SpentIps(st.requests, now), own);
        SweepFailsExactly(rt, h, Alive(ips[1..], Gone(st, h)), now, own);
      }
    }
    hide Inv, Sweep, HandleReq, Moved, Gone, SpentReqs, SpentIps, Needs, Regular, Taken, Keep, Alive, IpSet, DueIps, Saved, DistinctIps;
  }

  // ----- without any assumption on the routes ----------------------------------------------------

  lemma {:induction false} FailsMore(rt: Router, entries: seq<Entry>, s: set<Request>, t: set<Request>, hop: Ip, srcs: set<Ip>, busy: set<Ip>, own: bool)
    requires rt.Valid() && s <= t && Fails(rt, entries, s, hop, srcs, busy, own)
    ensures Fails(rt, entries, t, hop, srcs, busy, own)
    decreases |s|
  {
    hide OwnAddress, WaitsOn, Sources, Best;
    var src :| src in srcs && SourceFails(rt, entries, s, hop, src, busy, own);
    if Routed(rt, hop, src) && WaitsOn(rt, entries, src).value !in busy {
      var gw := WaitsOn(rt, entries, src).value;
      var more := if own then {OwnAddress(rt, hop)} else {};
      var q :| q in s && q.ip == gw && Fails(rt, entries, s - {q}, gw, Sources(q.packets) + more, busy + {gw}, own);
      Fewer(s, q);
      FailsMore(rt, entries, s - {q}, t - {q}, gw, Sources(q.packets) + more, busy + {gw}, own);
    }
    assert SourceFails(rt, entries, t, hop, src, busy, own);
  }

  /** Whatever the routes, a round fails only if some spent request needs one that is not yet expired. */
  lemma {:induction false} SweepFailsOnlyIf(rt: Router, st: State, ips: seq<Ip>, now: int)
    requires rt.Valid() && Inv(rt, st) && DistinctIps(ips) && forall ip <- ips :: ip in IpSet(st.requests)
    requires Sweep(rt, st, ips, now).None?
    ensures var spent := SpentReqs(st.requests, now); exists r, q :: r in spent && q in spent && Needs(rt, st.entries, spent, r, {q.ip}, true)
    decreases |ips|
  {
    var spent := SpentReqs(st.requests, now);
    SweepStep(rt, st, ips, now);
    assert ips[0] in ips;
    var h := HandleReq(rt, st, ips[0], now);
    if h.Some? && !(|ips| > 1 && ips[1] in Gone(st, h.value)) {
      Handled(rt, st, ips, now);
      SweepFailsOnlyIf(rt, h.value, Alive(ips[1..], Gone(st, h.value)), now);
      MovedRemain(st, h.value, now, SpentIps(st.requests, now));
      hide Fails;
      NeedsMore(rt, st.entries, SpentReqs(h.value.requests, now), spent);
    } else {
      HeadFailsOnlyIf(rt, st, ips, now);
    }
    hide Inv, Sweep, HandleReq, Moved, Gone, SpentReqs, SpentIps, Needs, Alive, IpSet, DueIps, DistinctIps;
  }

  lemma MovedRemain(st: State, after: State, now: int, allowed: set<Ip>)
    requires Moved(st, after, now, allowed)
    ensures SpentReqs(after.requests, now) <= SpentReqs(st.requests, now) && after.entries == st.entries
  {
    hide Gone, SpentReqs, Extends;
  }

  lemma NeedsMore(rt: Router, entries: seq<Entry>, s: set<Request>, t: set<Request>)
    requires rt.Valid() && s <= t
    ensures forall r, others, own | r in s && Needs(rt, entries, s, r, others, own) :: Needs(rt, entries, t, r, others, own)
  {
    forall r, others, own | r in s && Needs(rt, entries, s, r, others, own)
      ensures Needs(rt, entries, t, r, others, own)
    {
      FailsMore(rt, entries, s - {r}, t - {r}, r.ip, Sources(r.packets), {r.ip} + others, own);
    }
  }

  lemma HeadFailsOnlyIf(rt: Router, st: State, ips: seq<Ip>, now: int)
    requires rt.Valid() && Inv(rt, st) && DistinctIps(ips) && ips != [] && ips[0] in IpSet(st.requests)
    requires var h := HandleReq(rt, st, ips[0], now); h.None? || (|ips| > 1 && ips[1] in Gone(st, h.value))
    ensures var spent := SpentReqs(st.requests, now); exists r, q :: r in spent && q in spent && Needs(rt, st.entries, spent, r, {q.ip}, true)
  {
    var spent, h := SpentReqs(st.requests, now), HandleReq(rt, st, ips[0], now);
    HandleKeeps(rt, st, ips[0], now);
    if h.Some? {
      MovedPresent(st, h.value, now, SpentIps(st.requests, now));
    }
    SpentIpsOf(st.requests, now);
    hide InvWith, HandleReq, SpentReqs, SpentIps, IpSet, DueIps, Moved, Gone, Fails, Sources;
    if !Stuck(spent, ips[0]) {
      UnspentSucceeds(rt, st, ips[0], now);
      assert false;
    }
    var r :| r in spent && r.ip == ips[0];
    if h.None? {
      HandleFails(rt, st, r, {}, now);
      assert {r.ip} + {} == {r.ip} + {r.ip};
    } else {
      var q :| q in spent && q.ip == ips[1];
      HandleFails(rt, st, r, {q.ip}, now);
    }
  }

  /** And it does fail if some spent request needs itself, or an answer without a route. */
  lemma SweepFailsIf(rt: Router, st: State, ips: seq<Ip>, now: int, r: Request)
    requires rt.Valid() && Inv(rt, st) && DistinctIps(ips) && forall ip <- ips :: ip in IpSet(st.requests)
    requires r in SpentReqs(st.requests, now) && r.ip in ips
    requires Needs(rt, st.entries, SpentReqs(st.requests, now), r, {}, false)
    ensures Sweep(rt, st, ips, now).None?
  {
    var spent, t := SpentReqs(st.requests, now), Sweep(rt, st, ips, now);
    SweepKeeps(rt, st, ips, now);
    hide Inv, Sweep, SpentReqs, SpentIps, IpSet, DueIps, Fails, Sources, InOrder, News, Moved, DistinctIps, IpsOf;
    if t.Some? {
      AllExpired(st, t.value, now, r);
      var i := FirstAt(News(st, t.value), r.ip);
      assert Stuck(spent, r.ip);
      OrderRefutes(rt, st.entries, spent, News(st, t.value), i, r, spent - {r}, {r.ip} + {});
    }
  }

  /** A spent request that is not due afterwards is among the expiries. */
  lemma AllExpired(st: State, after: State, now: int, r: Request)
    requires Moved(st, after, now, SpentIps(st.requests, now))
    requires r in SpentReqs(st.requests, now) && r.ip !in DueIps(after.requests, now)
    ensures r.ip in IpsOf(News(st, after)) && r.ip in Gone(st, after)
  {
    MovedNews(st, after, now, SpentIps(st.requests, now));
    SpentAreDue(after.requests, now);
    hide Gone, News, SpentIps, SpentReqs, DueIps, Moved, IpsOf;
  }

  lemma SpentAreDue(requests: seq<Request>, now: int)
    ensures forall r <- SpentReqs(requests, now) :: r.ip in DueIps(requests, now)
  {
  }
}
