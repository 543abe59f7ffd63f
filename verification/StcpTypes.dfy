/** STCP wire format, connection states and the state of one endpoint. */
module StcpTypes {
  import opened Bytes
  import opened PacketQueueSpec

  const W64: nat := 0x1_0000_0000_0000_0000    // size_t; th_seq and th_ack are cut to 32 bits

  const MSS: nat := 536
  const RECV_WINDOW_SIZE: nat := 3072
  const ISN: nat := 1

  const TH_DATA: nat := 0x00
  const TH_FIN: nat := 0x01
  const TH_SYN: nat := 0x02
  const TH_ACK: nat := 0x10

  datatype Packet = Packet(seqno: nat, ack: nat, flags: nat, payload: seq<byte>)

  datatype CState = Closed | Listen | SynSent | SynRcvd | Established
                  | FinWait1 | FinWait2 | CloseWait | LastAck

  /** The bit vector returned by stcp_wait_for_event. */
  datatype Event = Event(app: bool, net: bool, close: bool) {
    predicate Any() { app || net || close }
  }

  /** Where the transport thread is. Boot and Shake are transport_init; the rest is one round of control_loop. */
  datatype Pc = Boot | Shake | Wait
              | AppStage(ev: Event) | NetStage(ev: Event) | CloseStage(ev: Event) | Exit

  /** context_t, the three queues of mysock_context_t, and the transport thread's position.
      `fault` is set where the C code copies outside a buffer, `overread` where stcp_network_recv sums and
      compares the bytes behind a buffer that was too short for the packet. The process ends at either. */
  datatype Endpoint = Endpoint(
    isClient: bool, conn: CState, done: bool,
    swnd: nat, cwnd: nat, recvWin: nat,
    sendBase: nat, recvBase: nat, next: nat, rem: nat,
    buffer: seq<byte>,
    appRecvQ: Blocks, appSendQ: Blocks, netQ: seq<Packet>,
    closeRequested: bool,
    pc: Pc, fault: bool, overread: bool) {
    predicate Running() { !fault && !overread }
  }

  /** What a step of an endpoint leaves behind: its new state and the packets it sent. */
  datatype Effect = Effect(e: Endpoint, sent: seq<Packet>)

  function Wrap64(n: int): nat { n % W64 }

  /** A size_t loses a multiple of 18446744073709551616. */
  lemma Wrap64Loses(n: int)
    ensures 0 <= Wrap64(n) < 18446744073709551616 && exists k: int :: n == Wrap64(n) + 18446744073709551616 * k
  {
    assert n == Wrap64(n) + 18446744073709551616 * (n / 18446744073709551616);
  }
}
