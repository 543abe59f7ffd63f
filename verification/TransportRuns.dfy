/** The states in which the methods of Transport are called: what they require holds in every reachable
    state, so each method's contract applies along every disciplined run. */
module TransportRuns {
  import opened StcpTypes
  import opened StcpSteps
  import opened StcpSystem
  import opened StcpLink
  import opened StcpInvariant
  import opened StcpHandshake
  import opened StcpTheorems

  lemma WaitIsInLoop(e: Endpoint)
    ensures e.pc == Wait ==> InLoop(e)
  {
  }

  lemma CloseWaitsNowhere(nonEmpty: bool, u: Sys, client: bool)
    requires Core(nonEmpty, u)
    ensures var e := EndOf(u, client).e; e.closeRequested ==> !JumpsToClose(e)
  {
    hide Link;
  }

  lemma ShakeStates(v: Sys)
    requires Handshake(v)
    ensures forall e <- [v.c, v.s] :: e.pc == Shake ==> e.conn == SynSent || e.conn == Listen || e.conn == SynRcvd
  {
  }

  /** In every reachable state an end in the handshake loop is in one of its three states, and a close
      request never waits in FIN_WAIT_1 or LAST_ACK when a round starts. */
  lemma ControlRoundIsReady(nonEmpty: bool, steps: seq<Step>, v: Sys, client: bool)
    requires Reached(nonEmpty, steps, v)
    ensures var e := EndOf(v, client).e;
            && (e.pc == Shake ==> e.conn == SynSent || e.conn == Listen || e.conn == SynRcvd)
            && (e.pc == Wait && Ready(e).Any() ==> RoundReady(e))
  {
    ReachedInv(nonEmpty, steps, v);
    hide Inv, Handshake, Core, Strip, Reached, Run, InLoop, JumpsToClose;
    InvSplits(nonEmpty, v);
    ShakeStates(v);
    LoopIsStripped(v, client);
    WaitIsInLoop(EndOf(v, client).e);
    CloseWaitsNowhere(nonEmpty, Strip(v), client);
    assert EndOf(v, client).e in [v.c, v.s];
  }
}
