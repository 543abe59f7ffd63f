/** A run that reaches a failing round: a packet whose source and destination are behind one silent gateway. */
module ArpGateway {
  import opened Options
  import opened RoutingTable
  import opened ArpSpec

  /** One packet, then a round of the timeout thread every two seconds. */
  function Script(src: Ip, dst: Ip, ttl: nat, start: int, rounds: nat): seq<Step> {
    [Transit(src, dst, ttl, start)] + seq(rounds, i => Timeout(start + 2 * (i + 1)))
  }

  /** The packet waits on the gateway, which has been asked once more than there were rounds. */
  function Asked(src: Ip, dst: Ip, ttl: nat, gw: Ip, start: int, rounds: nat): State {
    var p := Packet(0, src, dst, ttl);
    var r := Request(gw, start + 2 * rounds, rounds + 1, [p], seq(rounds + 1, i => start + 2 * i));
    State(Initial().entries, [r],
          Log(1, [p], [], [], [], seq(rounds + 1, i requires 0 <= i => Query(gw, dst, start + 2 * i)), [], []))
  }

  lemma {:induction false} NothingAges(entries: seq<Entry>, now: int)
    requires forall e <- entries :: !e.valid
    ensures Age(entries, now) == entries
  {
  }

  lemma {:induction false} NothingCached(entries: seq<Entry>, ip: Ip)
    requires forall e <- entries :: !e.valid
    ensures Lookup(entries, ip) == None
  {
    if entries != [] {
      NothingCached(entries[..|entries| - 1], ip);
    }
  }

  /** Handling the only request there is. */
  lemma OnlyRequest(rt: Router, st: State, r: Request, now: int)
    requires rt.Valid() && st.requests == [r] && Due(r, now)
    ensures r.timesSent < MAX_SENDS ==> HandleReq(rt, st, r.ip, now) == SendQuery(rt, st, 0, now)
    ensures r.timesSent >= MAX_SENDS ==> HandleReq(rt, st, r.ip, now) == Expire(rt, st, r, now, {})
  {
    assert IndexOf(st.requests, r.ip) == 0;
    if r.timesSent >= MAX_SENDS {
      assert r in st.requests;
      assert SpentIps(st.requests, now) - {r.ip} == {};
    }
    hide SendQuery, Expire;
  }

  /** One more broadcast for the packet. */
  lemma AskOnce(rt: Router, src: Ip, dst: Ip, ttl: nat, start: int, rounds: nat)
    requires rt.Valid() && Best(rt.table, dst).Some? && rounds < 4
    ensures var gw := Best(rt.table, dst).value.gw; var st := Asked(src, dst, ttl, gw, start, rounds);
            SendQuery(rt, st, 0, start + 2 * (rounds + 1)) == Some(Asked(src, dst, ttl, gw, start, rounds + 1))
  {
    var gw, now := Best(rt.table, dst).value.gw, start + 2 * (rounds + 1);
    var st, next := Asked(src, dst, ttl, gw, start, rounds), Asked(src, dst, ttl, gw, start, rounds + 1);
    hide Best;
    assert next.requests[0].sends == st.requests[0].sends + [now];
    assert next.log.queries == st.log.queries + [Query(gw, dst, now)];
    assert next.requests == st.requests[0 := Resent(st.requests[0], now)];
  }

  lemma FirstAsk(rt: Router, src: Ip, dst: Ip, ttl: nat, start: int)
    requires rt.Valid() && Best(rt.table, dst).Some? && start > 1
    ensures Submit(rt, Initial(), src, dst, ttl, false, start) == Some(Asked(src, dst, ttl, Best(rt.table, dst).value.gw, start, 0))
  {
    var gw, p := Best(rt.table, dst).value.gw, Packet(0, src, dst, ttl);
    NothingCached(Initial().entries, gw);
    FirstQuery(rt, src, dst, ttl, gw, start);
    OnlyRequest(rt, Unasked(p, gw), Request(gw, 0, 0, [p], []), start);
    hide Best, Lookup, HandleReq, SendQuery, Asked;
    assert [Request(gw, 0, 0, [p], [])] + [] == [Request(gw, 0, 0, [p], [])] && [] + [p] == [p];
  }

  /** The packet is queued and nothing has been sent. */
  function Unasked(p: Packet, gw: Ip): State {
    State(Initial().entries, [Request(gw, 0, 0, [p], [])], Log(1, [p], [], [], [], [], [], []))
  }

  lemma FirstQuery(rt: Router, src: Ip, dst: Ip, ttl: nat, gw: Ip, start: int)
    requires Best(rt.table, dst).Some?
    ensures SendQuery(rt, Unasked(Packet(0, src, dst, ttl), gw), 0, start) == Some(Asked(src, dst, ttl, gw, start, 0))
  {
    hide Best;
    var st, next := Unasked(Packet(0, src, dst, ttl), gw), Asked(src, dst, ttl, gw, start, 0);
    assert next.requests[0].sends == [] + [start];
    assert next.log.queries == [] + [Query(gw, dst, start)];
    assert next.requests == st.requests[0 := Resent(st.requests[0], start)];
  }

  /** A sweep over one request. */
  lemma OneSwept(rt: Router, st: State, ip: Ip, now: int)
    requires rt.Valid()
    ensures Sweep(rt, st, [ip], now) == HandleReq(rt, st, ip, now)
  {
    hide HandleReq, Gone;
    assert [ip][1..] == [];
  }

  lemma AskAgain(rt: Router, src: Ip, dst: Ip, ttl: nat, start: int, rounds: nat)
    requires rt.Valid() && Best(rt.table, dst).Some? && rounds < 4
    ensures var gw := Best(rt.table, dst).value.gw;
            Tick(rt, Asked(src, dst, ttl, gw, start, rounds), start + 2 * (rounds + 1)) == Some(Asked(src, dst, ttl, gw, start, rounds + 1))
  {
    var gw, now := Best(rt.table, dst).value.gw, start + 2 * (rounds + 1);
    var st := Asked(src, dst, ttl, gw, start, rounds);
    NothingAges(Initial().entries, now);
    assert Ips(st.requests) == [gw];
    OneSwept(rt, st, gw, now);
    OnlyRequest(rt, st, st.requests[0], now);
    AskOnce(rt, src, dst, ttl, start, rounds);
    hide Best, Age, Sweep, HandleReq, SendQuery;
  }

  lemma RunSplits(rt: Router, front: seq<Step>, last: Step)
    requires rt.Valid() && Run(rt, front).Some?
    ensures Run(rt, front + [last]) == Apply(rt, Run(rt, front).value, last)
  {
    hide Apply, Initial;
    assert (front + [last])[..|front|] == front;
  }

  lemma OneMoreRound(rt: Router, src: Ip, dst: Ip, ttl: nat, start: int, rounds: nat)
    requires rt.Valid() && Run(rt, Script(src, dst, ttl, start, rounds)).Some?
    ensures Run(rt, Script(src, dst, ttl, start, rounds + 1))
         == Tick(rt, Run(rt, Script(src, dst, ttl, start, rounds)).value, start + 2 * (rounds + 1))
  {
    hide Run, Tick;
    RunSplits(rt, Script(src, dst, ttl, start, rounds), Timeout(start + 2 * (rounds + 1)));
    assert Script(src, dst, ttl, start, rounds + 1) == Script(src, dst, ttl, start, rounds) + [Timeout(start + 2 * (rounds + 1))];
  }

  lemma {:induction false} AskedAfter(rt: Router, src: Ip, dst: Ip, ttl: nat, start: int, rounds: nat)
    requires rt.Valid() && Best(rt.table, dst).Some? && start > 1 && rounds <= 4
    ensures Run(rt, Script(src, dst, ttl, start, rounds)) == Some(Asked(src, dst, ttl, Best(rt.table, dst).value.gw, start, rounds))
  {
    hide Best, Tick, Asked;
    if rounds == 0 {
      var steps := Script(src, dst, ttl, start, rounds);
      FirstAsk(rt, src, dst, ttl, start);
      assert steps == [Transit(src, dst, ttl, start)] && steps[..0] == [];
      hide Submit;
    } else {
      hide Run, Script;
      AskedAfter(rt, src, dst, ttl, start, rounds - 1);
      AskAgain(rt, src, dst, ttl, start, rounds - 1);
      OneMoreRound(rt, src, dst, ttl, start, rounds - 1);
    }
  }

  /** The answer to the packet waits on the very request that is being expired. */
  lemma LastRound(rt: Router, src: Ip, dst: Ip, ttl: nat, start: int)
    requires rt.Valid() && Best(rt.table, dst).Some? && Best(rt.table, src).Some?
    requires Best(rt.table, src).value.gw == Best(rt.table, dst).value.gw
    ensures Tick(rt, Asked(src, dst, ttl, Best(rt.table, dst).value.gw, start, 4), start + 10) == None
  {
    var gw, now := Best(rt.table, dst).value.gw, start + 10;
    var st, p := Asked(src, dst, ttl, gw, start, 4), Packet(0, src, dst, ttl);
    NothingAges(Initial().entries, now);
    assert Ips(st.requests) == [gw];
    OneSwept(rt, st, gw, now);
    OnlyRequest(rt, st, st.requests[0], now);
    Hopeless(rt, src, dst, ttl, start);
    hide Best, Age, Sweep, HandleReq, AnswerAll, Initial;
  }

  lemma Hopeless(rt: Router, src: Ip, dst: Ip, ttl: nat, start: int)
    requires rt.Valid() && Best(rt.table, dst).Some? && Best(rt.table, src).Some?
    requires Best(rt.table, src).value.gw == Best(rt.table, dst).value.gw
    ensures var gw := Best(rt.table, dst).value.gw;
            AnswerAll(rt, Asked(src, dst, ttl, gw, start, 4), gw, [Packet(0, src, dst, ttl)], start + 10, {}) == None
  {
    var gw, now := Best(rt.table, dst).value.gw, start + 10;
    var st, p := Asked(src, dst, ttl, gw, start, 4), Packet(0, src, dst, ttl);
    NothingCached(Initial().entries, gw);
    hide Best, Lookup;
    assert IndexOf(st.requests, gw) == 0;
    assert AnswerOne(rt, st, gw, p, now, {}) == None;
    hide AnswerOne;
    assert [p][..0] == [];
  }

  /**
   * If no one answers for the gateway, five broadcasts go out, two seconds apart, and the round that
   * should give the packet up fails. Up to then nothing does.
   */
  lemma SharedGatewayFails(rt: Router, src: Ip, dst: Ip, ttl: nat, start: int)
    requires rt.Valid() && Best(rt.table, dst).Some? && Best(rt.table, src).Some? && start > 1
    requires Best(rt.table, src).value.gw == Best(rt.table, dst).value.gw
    ensures Run(rt, Script(src, dst, ttl, start, 4)).Some? && |Run(rt, Script(src, dst, ttl, start, 4)).value.log.queries| == 5
    ensures Run(rt, Script(src, dst, ttl, start, 5)) == None
  {
    AskedAfter(rt, src, dst, ttl, start, 4);
    LastRound(rt, src, dst, ttl, start);
    OneMoreRound(rt, src, dst, ttl, start, 4);
    hide Best, Tick, Script, Initial, Run;
  }
}
