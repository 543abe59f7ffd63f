# Transport, router and hashing code of the network assignments, verified

This project models the parts of the repository that hold state, run a protocol or do arithmetic on
words, and proves what they keep over whole runs. The main definitions follow the C code branch by
branch; the code that updates memory is a class or a method on arrays, proved equal to a function on
values, and the long-run properties are proved about those functions.

## What is modelled

**STCP** (20180036_assign4/transport.c, mysock.c, stcp_api.c, mysock_api.c). A client and a server,
each with its `context_t`, its three queues and the position of its transport thread, and two lossless
FIFO wires. One step is one packet of the handshake, one stage of a round of `control_loop` (wait, APP_DATA,
NETWORK_DATA, close), one delivery by the receive thread, or one `mywrite`, `myread` or `myclose`.
Steps of the two ends interleave freely, and so do the applications' calls with the stages of a round.
`StcpSteps` gives the branches, `StcpSystem` the transition system, `StcpInvariant`, `StcpLink`,
`StcpStages` and `StcpHandshake` the invariant and its proof, `StcpTheorems`, `StcpTeardown`, `StcpLimits`
and `StcpProgress` what follows from it, and `StcpOrderly` runs round by round. `StcpFree`, `StcpOverrun`,
`StcpEof`, `StcpLostClose` and `StcpUndisciplined` drop the discipline below, but for the byte bound: they say
of all runs exactly when the stream loses bytes, when a read or a copy leaves its buffer, when the end of file
comes too early and when a close request is lost, with a run for each.
`Transport` is the `context_t` class with the window buffer as an array; each of its methods is proved to
do what the step functions say, for every value of the fields. A copy out of bounds sets `fault`, and a checksum
over more octets than the buffer has sets `overread`; at either the process is gone, and no further step of
that end is possible. `PacketQueue` is the linked queue of mysock.c with real nodes.

What the applications must respect (predicate `StcpSystem.Disciplined`):

* fewer than 2^32 - 2 bytes are written in each direction, because `th_seq` and `th_ack` have 32 bits while
  `SendBase` and `next_seqnum` are `size_t`;
* the client calls `myclose` once all it wrote is acknowledged and all the server wrote has arrived, and
  nobody writes after that;
* the server calls `myclose` after `myread` has returned 0;
* `myread` is called with a positive length: with length 0 it returns 0 in front of bytes, and the end of file
  it then notes is final.

Runs with empty `mywrite` calls are covered too (`nonEmpty == false`). Their segments occupy no sequence
numbers, so with them the client's guard for `myclose` also asks that no data segment is in flight.

Where the code differs from what one would expect of it: data starts at sequence number 1, the number the
SYN already used; the handshake replies reuse the received header, so all three handshake packets carry
only TH_SYN; FIN_WAIT_1 and LAST_ACK take one packet and look only at its flags, but into a buffer for a header
alone: the dequeue returns the packet's full length, and the assertion in `stcp_network_recv`
(20180036_assign4/stcp_api.c:157-166) sums that many octets, so a packet with a payload is read past the buffer
and, unless the octets there sum like the payload, fails the assertion; the server's close request is dropped
without a trace if the client's FIN has not arrived; the buffer that `_mysock_dequeue_buffer` allocates for the
rest of a block is allocated before it is known that there is a rest.

**SHA-1** (20180036_assign3/sha1.c) against a definition of FIPS 180-1 (padding, section 4; functions,
section 5; digest, section 7) written in `Fips180` on sequences of octets and 32-bit vectors. `FipsWords` says
what its operations on words mean for bits and numbers, and `Fips180Example` is the first example of appendix A,
turn by turn.

**Internet checksums** (20180036_assign3/sr_utils.c, 20180036_assign4/tcp_sum.c) against one's complement sums
as numbers (RFC 1071, sections 1 and 2), with the router's validation and forwarding of an IP header.

**ARP cache, pending requests and longest-prefix match** (20180036_assign3/sr_arpcache.c, sr_router.c).
`ArpSpec` is the machine on values, one atomic step per locked operation or `sr_arpcache_handle_arpreq` call;
`ArpInvariant` and `ArpExpiry` prove what handling a request keeps, with the expiries that may start from
it; `ArpFailure`, `ArpOrder`, `ArpHandling` and `ArpSweep` when it fails, by conditions that do not depend on the
order of the packets, `ArpWalk` exactly when, by that order, `ArpGateway` is a run that does, and
`ArpTheorems` what runs keep; `ArpCache` is the class with the entry array and the request list. The clock is a parameter of every
step; no theorem needs it to be monotone. A step fails where the code dereferences a null route, continues
with a request it has freed, or expires a request from within its own expiry and never comes back. Comments in the source speak of sending every second; with whole
seconds and the test `difftime(now, sent) > 1.0` sends are at least two seconds apart.

**The mysocket layer** (20180036_assign4): the backlog of a listening socket (connection_demux.c), the framing
of packets over a byte stream (network_io_tcp.c) and the chained hash table (mysock_hash.h), each as a
class and as functions on values.

## Model

| member | source | states |
|---|---|---|
| PacketQueueSpec.TakeSplits | 20180036_assign4/mysock.c:203-234 | a partial dequeue splits the byte stream in two: it returns as many bytes of the head block as were asked for, all of them if it has fewer, and the block goes exactly in that case |
| PacketQueueSpec.QueueIsAByteStream | 20180036_assign4/mysock.c:129-238 | in every interleaving of enqueues and partial dequeues, bytes returned ++ bytes left == bytes enqueued |
| PacketQueueSpec.EmptyReadOnlyAtMarker | 20180036_assign4/mysock.c:203-237 | a read of positive size returns 0 only at an empty block, after every byte enqueued before it was returned |
| PacketQueue.Queue.EnqueueBuffer | 20180036_assign4/mysock.c:129-164 | the linked list gains a node at its tail holding a copy of the buffer; head, tail and acyclicity are kept |
| PacketQueue.Queue.DequeueBuffer | 20180036_assign4/mysock.c:173-238 | the destination holds the first bytes of the stream, min(length asked for, head block) of them, and their number is returned; the list holds the rest, in place or unlinked; head, tail and acyclicity are kept |
| StcpLink.SendDataKeepsSender | 20180036_assign4/transport.c:206-246 | sending keeps the byte equation, the numbering, the window bounds and the contents of the window buffer of its direction |
| StcpLink.SendDataKeepsWindow | 20180036_assign4/transport.c:208-238 | with rem 0 nothing happens; else one segment leaves with the number next_seqnum and min(rem, 536, head block) bytes, which are in the window buffer, and next_seqnum and rem move by as many |
| StcpLink.RecvAckKeepsWindow | 20180036_assign4/transport.c:266-300 | an acknowledgement within the window moves SendBase, grows the window, copies within bounds, and rem does not wrap |
| StcpLink.RecvDataEffect | 20180036_assign4/transport.c:327-339 | a segment in order is handed up as one block unless it is empty, and answered by an acknowledgement that carries the new RecvBase twice |
| StcpLink.RecvFinEffect | 20180036_assign4/transport.c:303-326 | a FIN in order puts one end-of-file mark on the queue, moves RecvBase by one, and is answered by an acknowledgement that carries it twice |
| StcpLink.SendFinEffect | 20180036_assign4/transport.c:375-391 | a FIN carries next_seqnum, which it moves by one, and takes one from rem |
| StcpHandshake.StepKeepsInv | 20180036_assign4/transport.c:91-412 | every disciplined step of either end keeps the invariant of the whole system |
| StcpHandshake.RunKeepsInv | 20180036_assign4/transport.c:75-412 | so every state of every disciplined run satisfies it |
| StcpTheorems.StreamSafety | 20180036_assign4/transport.c:206-339 | in both directions at once, read ++ waiting to be read ++ in flight ++ waiting to be sent is what the peer wrote; what is read is a prefix of it |
| StcpTheorems.EofMeansEverythingRead | 20180036_assign4/mysock_api.c:218-234 | in a disciplined run `myread` returns 0 only after every byte of the peer was read |
| StcpTheorems.WindowAccounting | 20180036_assign4/transport.c:210-334 | SendBase <= every ACK in flight, in order <= peer's RecvBase <= next_seqnum <= SendBase + SWND; rem is exact; segments are numbered consecutively and carry at most 536 bytes, at least 1 without empty writes |
| StcpTheorems.SendBufferHolds | 20180036_assign4/transport.c:195-299 | no copy leaves a buffer, the buffer has length SWND, and it starts with the sent and unacknowledged bytes |
| StcpTheorems.FullWindowReopens | 20180036_assign4/transport.c:210-213 | when rem is 0 a data segment or an acknowledgement that will reopen the window is in flight |
| StcpProgress.EverythingCanArrive | 20180036_assign4/transport.c:196-340 | from every disciplined state with nobody closed the transport threads alone can bring each end all that its peer wrote |
| StcpTheorems.HandshakeTakesItsOwn | 20180036_assign4/transport.c:106-144 | each round of the handshake takes exactly the packet it waits for, never a data packet: numbers 1 and 0, then 1 and 2, then 2 and 2, all with the flag 0x02 |
| StcpTheorems.HandshakeAgrees | 20180036_assign4/transport.c:145-152 | an end enters the loop with SendBase and next_seqnum equal to 1 and to the peer's RecvBase, and with RecvBase equal to 1 and to the number the peer's data in flight starts at |
| StcpTeardown.TeardownOrder | 20180036_assign4/transport.c:303-409 | the server is done only after the client; a client that is done leaves the server in LAST_ACK or done; both streams are then delivered in full and nothing is left in flight |
| StcpTeardown.ClosingAckIsForOwnFin | 20180036_assign4/transport.c:363-407 | the packet FIN_WAIT_1 or LAST_ACK takes is the acknowledgement of that end's own FIN, though its number is not checked |
| StcpTeardown.StepLowersMeasure | 20180036_assign4/transport.c:196-412 | after both applications closed, every possible step lowers a natural-number measure |
| StcpTeardown.NotDoneCanStep | 20180036_assign4/stcp_api.c:60-126 | and until both threads have exited some step is possible |
| StcpTeardown.TeardownTerminates | 20180036_assign4/transport.c:341-411 | so every continuation is finite and ends with both ends CLOSED and both streams delivered |
| StcpLimits.WindowOpensInTwelve | 20180036_assign4/transport.c:284-293 | SWND never shrinks, stays in 536..3072, and is 3072 exactly from the twelfth acknowledgement on |
| StcpLimits.CwndInNumbers | 20180036_assign4/transport.c:284-291 | CWND in numbers: 536 times one more than the acknowledgements up to the third, then 287296 / CWND more for each |
| StcpLimits.CwndOfRun | 20180036_assign4/transport.c:284-291 | along every run CWND is the n-th value of the growth rule, n being the acknowledgements taken |
| StcpLimits.SwndInEveryState | 20180036_assign4/transport.c:293 | in every reachable state SWND is 3072 exactly if at least twelve acknowledgements were taken |
| StcpOrderly.DoRound | 20180036_assign4/transport.c:196-411 | a pass through the loop body with nothing happening in between is a run of up to four steps of the system: three at the jump to `close`, fewer than that where the process goes |
| StcpOrderly.CompleteConnection | 20180036_assign4/transport.c:75-412 | a disciplined run from the first SYN to both ends closed with a byte delivered: the hypotheses of the theorems can be met to the end |
| StcpFree.StepBytes | 20180036_assign4/transport.c:251-259 | every step of every run keeps the byte equation and the count of missing bytes, except taking a data packet in FIN_WAIT_1 or LAST_ACK: that reads past the header buffer, and exactly that does |
| StcpFree.StreamSafetyExactly | 20180036_assign4/transport.c:363-407 | in every run, whatever the applications write and when they close: the stream towards an end is intact if and only if that end has not read past a header buffer, which is so if and only if no data packet was taken there in FIN_WAIT_1 or LAST_ACK; the bytes missing are that packet's |
| StcpUndisciplined.ServerStreamIntact | 20180036_assign4/transport.c:363-373 | with the byte bound alone the stream to the server is intact in every run: LAST_ACK never meets a data packet |
| StcpUndisciplined.ConservedExactly | 20180036_assign4/transport.c:396-407 | with the byte bound alone the conclusion of StreamSafety holds after a run if and only if the client took no data packet in FIN_WAIT_1, that is has not read past its buffer |
| StcpUndisciplined.EarlyClientCloseOverreads | 20180036_assign4/transport.c:396-407 | a concrete run in which a client that closes too early takes a byte of the server into FIN_WAIT_1: it reads past its buffer, no step of the client is possible any more, and the byte is missing |
| Headers.OverreadPassesExactly | 20180036_assign4/stcp_api.c:157-166 | the assertion that then sums the octets behind the buffer passes if and only if they have the same sum modulo 65535 as the payload |
| StcpEof.EofExactly | 20180036_assign4/mysock_api.c:218-234 | with the byte bound alone, once `myread` has returned 0 at an end, all the peer wrote has been read there if and only if no `myread` of length 0 has met bytes |
| StcpEof.EmptyReadCutsStream | 20180036_assign4/mysock_api.c:225-232 | a concrete run in which a `myread` of length 0 closes the stream in front of a byte |
| StcpOverrun.NoOverrun | 20180036_assign4/transport.c:293-299 | with the byte bound alone, neither a copy nor a checksum at the server leaves its buffer in any run, and no copy at the client unless its FIN left with a full window and fewer than two answers to come |
| StcpOverrun.OverrunExactly | 20180036_assign4/transport.c:293-299 | once the client has left its loop or copied outside its buffer, it was the copy if and only if its FIN left so |
| StcpUndisciplined.FullWindowFinOverruns | 20180036_assign4/transport.c:293-299 | a concrete run: 536 bytes written and the connection closed before the answer; the copy is then of (size_t)-1 bytes |
| StcpLostClose.CloseIsLostExactly | 20180036_assign4/transport.c:341-374 | in every run the server's close request is lost if and only if the close branch ran for it in ESTABLISHED, that is before the client's FIN was taken |
| StcpLostClose.LostCloseNeverEnds | 20180036_assign4/transport.c:341-374 | a server whose request was lost never finishes, in any continuation |
| StcpLostClose.ServerClosesFirst | 20180036_assign4/transport.c:341-374 | a concrete run in which the request is lost: the server closes right after the handshake |
| StcpTypes.Wrap64Loses | 20180036_assign4/transport.c:236-237 | a `size_t` loses a multiple of 2^64 and nothing else |
| Bytes.Wrap32Loses | 20180036_assign4/transport.c:218 | a number put into `th_seq` or `th_ack` loses a multiple of 2^32 and nothing else |
| Transport.Context.Start | 20180036_assign4/transport.c:75-104 | the client sends its SYN and waits, the server listens |
| Transport.Context.HandshakeRound | 20180036_assign4/transport.c:106-144 | one round of the handshake loop on the fields of the context |
| Transport.Context.WaitForEvent | 20180036_assign4/stcp_api.c:60-126 | the event vector, and the close request cleared once it is reported |
| Transport.Context.SendAppData | 20180036_assign4/transport.c:208-238 | one segment leaves, its bytes are in the window buffer, next_seqnum and rem move |
| Transport.Context.OpenWindow | 20180036_assign4/transport.c:284-299 | the buffer is replaced by one of the new window size that keeps the unacknowledged bytes, whatever the acknowledgement, if the copy stays within both |
| Transport.Context.ReceiveAck | 20180036_assign4/transport.c:266-302 | the ACK branch on the fields of the context, for every acknowledgement number; the fault is seen exactly where the copy leaves a buffer |
| Transport.Context.ReceiveFin | 20180036_assign4/transport.c:303-326 | the FIN branch: acknowledged, end-of-file queued for the application, connection state |
| Transport.Context.ReceiveData | 20180036_assign4/transport.c:327-339 | the data branch: acknowledged and handed up unless empty |
| Transport.Context.CloseAt | 20180036_assign4/transport.c:341-409 | the block at label close, at either end and in every connection state |
| Transport.Context.ControlRound | 20180036_assign4/transport.c:196-411 | one pass through the loop body, with its two gotos, is the four stages of the transition system in a row |
| TransportRuns.ControlRoundIsReady | 20180036_assign4/transport.c:106-411 | what a handshake round and a control round require holds at both ends in every reachable state |
| Sha1.Context.Reset | 20180036_assign3/sha1.c:71-85 | the context stands for the empty message |
| Sha1.Context.Input | 20180036_assign3/sha1.c:143-185 | the octets are appended: full blocks are hashed, the index is the count modulo 64, the two counters are the 64-bit length; 2^64 bits or input after the digest mark it corrupted |
| Sha1.Context.ProcessMessageBlock | 20180036_assign3/sha1.c:207-301 | the digest words become the hash of the block by the step function of FIPS 180-1, section 7 |
| Sha1.Context.PadMessage | 20180036_assign3/sha1.c:326-371 | after the padding is hashed the digest words are the digest of the whole message |
| Sha1.Context.Result | 20180036_assign3/sha1.c:104-119 | the result is 0 exactly for a corrupted context, else the digest, computed once |
| Sha1.DigestSplits | 20180036_assign3/sha1.c:326-371 | the digest of FIPS 180-1 is that of the full blocks followed by the one or two blocks the padding makes |
| Fips180.PadIsShortest | 20180036_assign3/sha1.c:326-371 | the padding is a 1 bit, zeros and the 64-bit length, most significant octet first, and is the shortest such that fills the last block |
| Fips180.LengthInBits | 20180036_assign3/sha1.c:361-368 | the eight octets are the length in bits as one number modulo 2^64 |
| FipsWords.ChChooses | 20180036_assign3/sha1.c:246 | bit by bit: a bit of the first word chooses between the other two |
| FipsWords.ParIsParity | 20180036_assign3/sha1.c:257 | bit by bit: set exactly for an odd number of set bits |
| FipsWords.MajIsMajority | 20180036_assign3/sha1.c:269 | bit by bit: set exactly if two or more of the three are |
| FipsWords.PlusIsAddition | 20180036_assign3/sha1.c:245-247 | the sum of two words is that of the numbers their bits make, modulo 2^32 |
| Fips180Example.DigestOfAbc | 20180036_assign3/sha1.c:207-301 | the digest of "abc" is A9993E36 4706816A BA3E2571 7850C26C 9CD0D89D, as appendix A of FIPS 180-1 gives it |
| Sha1Use.HashPieces | 20180036_assign3/sha1.c:143-185 | however a message is cut into calls, the result is its digest, and there is a result exactly below 2^64 bits |
| OnesComplement.ByteOrderIndependence | 20180036_assign4/tcp_sum.c:41-60 | summing words in the other byte order gives the swapped one's complement sum |
| OnesComplement.SumIsResidue | 20180036_assign3/sr_utils.c:12-15 | the sum of the words has the residue modulo 65535 of the octets read as one number |
| Checksum.RoutinesAgree | 20180036_assign3/sr_utils.c:8-20 | on the same bytes both routines give the same field, except that `cksum` writes 0xffff for 0 |
| Checksum.RouterAcceptsExactly | 20180036_assign3/sr_router.c:148-153 | the router accepts a header exactly when its total is 0xffff and its field is not 0 |
| Checksum.FilledHeaderPasses | 20180036_assign3/sr_utils.c:12-19 | a header filled by `cksum` has total 0xffff and passes |
| Checksum.OneWordErrors | 20180036_assign3/sr_router.c:148-153 | replacing any other word of an accepted header goes unnoticed exactly when it is the same or the other zero |
| Checksum.TcpAcceptsExactly | 20180036_assign4/tcp_sum.c:87-105 | the segment test passes exactly when pseudo-header and segment total 0xffff and the field is not 0xffff |
| Checksum.Cksum | 20180036_assign3/sr_utils.c:8-20 | for every length an int can give, the field for the sum modulo 2^32; it is the one's complement checksum if and only if the sum fits the accumulator |
| Checksum.TcpChecksum | 20180036_assign4/tcp_sum.c:14-67 | for every length: the complement of the one's complement sum, unless an address is 0 (an assertion), the length is 2^33 or more (the 32-bit counter never reaches the end) or the sum passes 2^31 - 1 (the signed accumulator overflows), and exactly then none |
| Checksum.SegmentSum | 20180036_assign4/tcp_sum.c:19-60 | what is summed: the addresses, the protocol number 6, the length modulo 2^16, and the segment except its octets 16 and 17 |
| Checksum.ShortSegmentsFit | 20180036_assign4/tcp_sum.c:38-60 | for a segment of up to 65520 bytes the routine returns exactly if both addresses are set |
| Checksum.TwoFoldsSuffice | 20180036_assign4/tcp_sum.c:62-66 | two folds are enough for a sum below 2^31 |
| Headers.SetChecksum | 20180036_assign4/tcp_sum.c:70-84 | only the sum field of the segment changes, to the checksum with the field taken as 0, unless the routine for the sum does not return |
| Headers.VerifyChecksum | 20180036_assign4/tcp_sum.c:87-105 | true exactly for a segment whose stored field is the one recomputed with the addresses swapped, unless the routine for the sum does not return |
| Headers.ReceiverAcceptsSegment | 20180036_assign4/tcp_sum.c:70-105 | what one end sets the other end accepts, at every length; its total is 0xffff, and the receiver's sum returns exactly if the sender's did |
| Headers.Validate | 20180036_assign3/sr_router.c:148-153 | accepts exactly the headers that pass the test and leaves them unchanged; a rejected one has a zero field |
| Headers.Forward | 20180036_assign3/sr_router.c:417-419 | the header with the time to live less one (8 bits) and the checksum redone |
| Headers.NextHopAccepts | 20180036_assign3/sr_router.c:417-419 | the next router accepts what is forwarded; of the 20 octets only 8, 10 and 11 change, and the time to live in octet 8 drops by one, 0 becoming 255 |
| RoutingTable.FindLpmEntry | 20180036_assign3/sr_router.c:627-647 | the loop with its running mask returns the choice specified by `Best` |
| RoutingTable.BestIsMaximal | 20180036_assign3/sr_router.c:634-644 | a matching entry of maximal mask among those with non-zero mask, or none exactly if none matches |
| RoutingTable.OrderDoesNotMatter | 20180036_assign3/sr_router.c:634-644 | without two entries for one network the choice is the same for every permutation of the table |
| RoutingTable.FirstOfNetworkWins | 20180036_assign3/sr_router.c:640 | of two entries for one network the later is never chosen |
| RoutingTable.DefaultRouteIsIgnored | 20180036_assign3/sr_router.c:630-640 | an entry with mask 0 is never chosen |
| RoutingTable.MaskKeepsItsBits | 20180036_assign3/sr_router.c:640 | a mask keeps of an address exactly the bits it has, whatever the mask |
| RoutingTable.PrefixMatches | 20180036_assign3/sr_router.c:640 | a mask of n leading ones keeps the address less its residue modulo 2^(32-n), and an entry with it matches exactly the addresses with the same quotient |
| RoutingTable.LongestPrefix | 20180036_assign3/sr_router.c:640 | with contiguous masks the entry chosen shares its prefix with the address, and no entry of the table shares a longer one |
| ArpInvariant.SendQueryEffect | 20180036_assign3/sr_arpcache.c:146-194 | with sends left a broadcast cannot fail and keeps the invariant; it asks for the destination of the newest packet, counts one send more at this time, and changes nothing else; the request is no longer due |
| ArpExpiry.AnswerOneKeeps | 20180036_assign3/sr_arpcache.c:81-137 | an answer that succeeds, however many expiries start from it, counts its packet as answered and keeps the invariant; spent requests are destroyed or left as they were |
| ArpExpiry.AnswerOneSays | 20180036_assign3/sr_arpcache.c:81-137 | the answer to a waiting packet goes to its sender, from the address of the interface towards the silent next hop, with time to live 255: at once to the resolved MAC address, or into the queue |
| ArpExpiry.AllToldInOrder | 20180036_assign3/sr_arpcache.c:74-137 | with all ways back resolved every sender is told once, in the order of the list, and neither cache nor requests change |
| ArpExpiry.ExpireKeeps | 20180036_assign3/sr_arpcache.c:72-142 | an expiry that does not fail answers every packet, unlinks its request and, of the others, only spent ones it expired on the way, and logs each as sent five times over ten seconds or more |
| ArpHandling.HandleFails | 20180036_assign3/sr_arpcache.c:52-142 | expiring a request fails, or destroys one of some given others, only if its answers need a missing route, a request under expiry or one of those, however deep; it does so if they need one even without the router's own answers |
| ArpHandling.HandleFailsExactly | 20180036_assign3/sr_arpcache.c:52-142 | and exactly then, if the router's own addresses are all reachable without waiting on a spent request, or none has a route |
| ArpOrder.OrderRefutes | 20180036_assign3/sr_arpcache.c:124-142 | in a call that comes to its end every request is expired after those its answers waited for, so what cannot be put in such an order was not expired |
| ArpSweep.SweepKeeps | 20180036_assign3/sr_arpcache.c:24-36 | a sweep that does not fail keeps the invariant, leaves no request of the list due, and has expired the spent ones in an order their answers allow |
| ArpSweep.SweepFailsExactly | 20180036_assign3/sr_arpcache.c:24-36 | under the same assumption a sweep fails exactly when some request still in the list at its turn needs itself, a missing route, or the next request, whose address was saved |
| ArpTheorems.TickEffect | 20180036_assign3/sr_arpcache.c:433-449 | a timeout round that does not fail leaves valid exactly the entries of age at most 15, no request unsent for more than a second, and has given up every due request with its five sends used up, with all its packets, and no other |
| ArpTheorems.TickFailsExactly | 20180036_assign3/sr_arpcache.c:433-449 | under the same assumption the round fails exactly when the list is blocked so |
| ArpWalk.HandleWalks | 20180036_assign3/sr_arpcache.c:52-142 | without any assumption: handling a request fails exactly where a walk does that knows only routes, the cache and the spent requests' packets in their order, and leaves the spent requests that the walk leaves |
| ArpTheorems.TickFailsWhereWalkDoes | 20180036_assign3/sr_arpcache.c:433-449 | without any assumption: the round fails exactly where that walk over the list, with its saved next pointer, does |
| ArpTheorems.SubmitFailsWhereWalkDoes | 20180036_assign3/sr_router.c:406-431 | without any assumption: submitting a packet fails exactly if its hop is unresolved and the walk over the request it joins fails |
| ArpTheorems.TickFailureBounds | 20180036_assign3/sr_arpcache.c:433-449 | in terms of the requests alone, not their order: a round fails only if some spent request needs one not yet expired, and does fail if one needs itself or a missing route without the router's own answers |
| ArpGateway.SharedGatewayFails | 20180036_assign3/sr_arpcache.c:72-137 | a run for every packet whose source and destination share a silent gateway: five broadcasts two seconds apart, then the round that should give it up fails |
| ArpTheorems.DisciplinedTickSucceeds | 20180036_assign3/sr_arpcache.c:124-136 | if every waiting packet has its routes and what its answer waits on has sends left, no round fails |
| ArpTheorems.ReceiveEffect | 20180036_assign3/sr_router.c:570-602 | a reply never fails: what waited for it leaves once, in order, with its MAC address, its request is gone, the first free slot holds the reply, and nothing else in the cache, the list or the history changes |
| ArpTheorems.SubmitEffect | 20180036_assign3/sr_router.c:406-431 | submitting a packet keeps the invariant. Without a route nothing happens; with the next hop resolved exactly this packet leaves for it, its time to live less one in 8 bits unless it is the router's own; it fails only if it joins a spent request that cannot be expired, exactly then under the assumption of HandleFailsExactly |
| ArpTheorems.FirstPacketAsks | 20180036_assign3/sr_arpcache.c:237-280 | the first packet for an unresolved hop opens a request at the head of the list, which is broadcast at once (at times 0 and 1 it looks as if just sent) |
| ArpTheorems.LaterPacketJoins | 20180036_assign3/sr_arpcache.c:237-280 | a later one goes in front of those that wait, and the request is broadcast again exactly when more than a second has passed and fewer than five sends were made |
| ArpTheorems.RunKeepsInv | 20180036_assign3/sr_arpcache.c:52-378 | every state of every run satisfies the invariant |
| ArpTheorems.PacketConservation | 20180036_assign3/sr_arpcache.c:237-378 | every packet ever queued is in exactly one place: on the one request for its next hop, sent once after a reply for that hop, or answered once |
| ArpTheorems.RetryBound | 20180036_assign3/sr_arpcache.c:65-195 | at most five sends, two seconds or more apart; expiry only after exactly five sends and ten seconds |
| ArpTheorems.EveryDepartureHasAReply | 20180036_assign3/sr_router.c:406-420 | every IP packet leaves with the MAC address some reply gave for its next hop |
| ArpTheorems.WaitingCostsOneHop | 20180036_assign3/sr_router.c:591-596 | a packet that waited loses one hop exactly when it did not arrive with 255 |
| ArpTheorems.LookupNone | 20180036_assign3/sr_arpcache.c:203-229 | a lookup finds nothing exactly when no valid entry is for the address |
| ArpTheorems.LearnedIsFound | 20180036_assign3/sr_arpcache.c:313-326 | with a free slot and no older entry further down, a lookup finds the reply's address |
| ArpTheorems.LearnedForFifteenSeconds | 20180036_assign3/sr_arpcache.c:313-326 | a reply for an address without an entry serves the lookups of the next 15 seconds and none after; lookups of other addresses do not change |
| ArpTheorems.OldEntryHides | 20180036_assign3/sr_arpcache.c:209-215 | an older valid entry further down the array hides the new one |
| ArpTheorems.FullCacheStillFlushes | 20180036_assign3/sr_arpcache.c:313-326 | a full cache learns nothing, but the packets that waited still leave |
| ArpCache.Cache.LookupEntry | 20180036_assign3/sr_arpcache.c:203-229 | the scan returns the last valid entry for the address |
| ArpCache.Cache.QueueReq | 20180036_assign3/sr_arpcache.c:237-280 | the packet is first on the request for its hop, an old one or a new one at the head of the list |
| ArpCache.Cache.Insert | 20180036_assign3/sr_arpcache.c:286-331 | unlinks and returns the request for the address, and fills the first free slot if there is one |
| ArpCache.Cache.Destroy | 20180036_assign3/sr_arpcache.c:335-378 | unlinks that request and no other |
| ArpCache.Cache.HandleReq | 20180036_assign3/sr_arpcache.c:52-199 | on the array and the list it does what the step on values does, through every nested expiry, and fails exactly where that fails |
| ArpCache.Cache.Timeout | 20180036_assign3/sr_arpcache.c:433-449 | the same for a round of the timeout thread |
| ArpCache.Cache.Receive | 20180036_assign3/sr_router.c:570-602 | the same for a reply and the flush it triggers |
| ArpCache.Cache.Submit | 20180036_assign3/sr_router.c:406-431 | the same for a packet on its way out |
| ListenQueueSpec.EnqueueKeeps | 20180036_assign4/connection_demux.c:142-258 | a SYN is queued exactly when its peer is new, there is room and a descriptor; it then takes the first free slot; the assertions hold and all else is unchanged |
| ListenQueueSpec.CompleteKeeps | 20180036_assign4/connection_demux.c:260-304 | completing fails exactly when the connection is not in the pool up to the limit |
| ListenQueueSpec.AcceptKeeps | 20180036_assign4/connection_demux.c:74-118 | accepting yields the oldest completed connection not yet accepted and frees its slot |
| ListenQueueSpec.SetBacklogKeeps | 20180036_assign4/connection_demux.c:310-357 | a new backlog keeps the invariant exactly when it cuts off no connection and does not replace the pool under a completed one; the limit is then one more than the backlog, a larger pool has the old slots and cleared ones, a smaller limit moves nothing |
| ListenBacklog.SafeBacklogExactly | 20180036_assign4/connection_demux.c:310-357 | no calls after a new backlog fail an assertion, follow a dangling pointer or take a peer twice, if and only if it does not replace the pool under a completed connection and leaves beyond the limit only completed ones that will be accepted before the counter falls below it |
| ListenQueueSpec.CutConnectionFails | 20180036_assign4/connection_demux.c:275-281 | a connection cut off by a smaller backlog trips the assertion when it completes |
| ListenQueueSpec.MovedPoolFails | 20180036_assign4/connection_demux.c:341-350 | after a larger backlog a waiting completed connection is accepted through a dangling pointer |
| ListenQueueSpec.EveryStateOfARun | 20180036_assign4/connection_demux.c:74-357 | in every state of a run: counter, distinct peers, descriptors and entries, accepts in completion order, and the next allowed call cannot fail |
| ListenQueue.ListenQueue.Enqueue | 20180036_assign4/connection_demux.c:142-258 | the searches and updates of the slot array do the step on values |
| ListenQueue.ListenQueue.Complete | 20180036_assign4/connection_demux.c:260-304 | the same for completion |
| ListenQueue.ListenQueue.Accept | 20180036_assign4/connection_demux.c:74-118 | the same for accepting, with the pool pointer checked |
| ListenQueue.ListenQueue.SetBacklog | 20180036_assign4/connection_demux.c:310-357 | the same for the backlog; growing allocates a new array |
| Framing.Socket.WriteAll | 20180036_assign4/network_io_tcp.c:243-265 | the loop appends the bytes that the calls accept, up to the first failing call |
| Framing.Socket.ReadAll | 20180036_assign4/network_io_tcp.c:243-265 | the loop moves the bytes that the calls yield to the front of the buffer |
| Framing.ReadRunHealthy | 20180036_assign4/network_io_tcp.c:243-265 | without errors a read ends early only at the end of the stream, for every pattern of short reads |
| Framing.SendPacket | 20180036_assign4/network_io_tcp.c:153-159 | what it reports and what it leaves on the stream, for every pattern of results |
| Framing.SendWhole | 20180036_assign4/network_io_tcp.c:153-159 | if every write moves something the whole frame is on the stream |
| Framing.HeaderLength | 20180036_assign4/network_io_tcp.c:153-230 | the two octets in front are the length modulo 2^16, high octet first, and are read so |
| Framing.SendIsHonest | 20180036_assign4/network_io_tcp.c:153-159 | success is reported exactly for a whole frame, if and only if an error is reported or none of the writes made returned 0 |
| Framing.RefusedHeaderDesyncs | 20180036_assign4/network_io_tcp.c:154-157 | a write that returns 0 loses the header and still counts as success |
| Framing.RecvPacket | 20180036_assign4/network_io_tcp.c:218-238 | the result, the bytes stored and the bytes left, for every pattern of results |
| Framing.TakeHealthy | 20180036_assign4/network_io_tcp.c:218-238 | if no read fails they depend on the stream alone |
| Framing.TakeOfAPacket | 20180036_assign4/network_io_tcp.c:225-238 | for every pattern of results: the length or an error; what fits of the packet is stored if it is the length; and the reader is at the packet's end exactly when no read failed, which goes unreported while the rest of a long packet is thrown away |
| Framing.FrameRoundTrip | 20180036_assign4/network_io_tcp.c:153-238 | a packet arrives whole and counted exactly when it has 1 to 65535 bytes and fits the buffer |
| Framing.BoundaryKept | 20180036_assign4/network_io_tcp.c:231-236 | the reader is left at a packet boundary exactly when the length fits 16 bits and the buffer has room for a byte |
| Framing.LongPacketIsCut | 20180036_assign4/network_io_tcp.c:225-238 | a packet too long for the buffer is cut, reported at its full length, and skipped |
| Framing.TruncatedLooksClosed | 20180036_assign4/network_io_tcp.c:225-238 | a stream that ends inside a packet gives the result 0, though the buffer holds the bytes that came |
| Framing.EmptyPacketLooksClosed | 20180036_assign4/network_io_tcp.c:225-229 | an empty packet reads like the end of the stream |
| Framing.ListRoundTrip | 20180036_assign4/network_io_tcp.c:163-238 | a list of packets that fit comes out as it went in, at a boundary each time |
| Framing.SentIsReceived | 20180036_assign4/network_io_tcp.c:135-265 | end to end, for every pattern of short writes |
| HashTable.LookupFindsAll | 20180036_assign4/mysock_hash.h:65-75 | every entry of a valid table is found under its key |
| HashTable.InsertRefines | 20180036_assign4/mysock_hash.h:77-94 | inserting an absent key adds it to the map the chains stand for |
| HashTable.SetRefines | 20180036_assign4/mysock_hash.h:115-122 | setting adds or overwrites exactly that key |
| HashTable.DeleteRefines | 20180036_assign4/mysock_hash.h:124-144 | deleting removes exactly that key |
| HashTable.DeleteAssertion | 20180036_assign4/mysock_hash.h:143 | the final assertion holds exactly when the key was in its chain at most once |
| HashTable.InsertPresentBreaksDelete | 20180036_assign4/mysock_hash.h:77-94 | inserting a present key hides the old entry, which a later deletion uncovers |
| HashTable.Table.Get | 20180036_assign4/mysock_hash.h:103-107 | the chain walk returns what the lookup on values returns |
| HashTable.Table.Put | 20180036_assign4/mysock_hash.h:77-94 | the new entry heads its chain, and its assertion holds |
| HashTable.Table.Set | 20180036_assign4/mysock_hash.h:115-122 | overwrites in place or inserts |
| HashTable.Table.Remove | 20180036_assign4/mysock_hash.h:124-144 | unlinks the first entry for the key; whether its assertion holds |

## Left out

- Unreliable mode (network.c): transport.c never retransmits, so none of the STCP claims would hold.
- Threads, locks, condition variables and real time: each locked section, each stage of a round and each call of the ARP code is one atomic step, and a call that would block is not enabled.
- The port, window, data offset and urgent fields of a segment, the log files, and the unused states, timeouts and `new_buffer_size` of transport.c.
- The end-of-file marker the exiting transport thread adds (20180036_assign4/mysock.c:397): `myread` has already returned 0, or will at the marker of the FIN.
- `myclose` discarding what the application did not read, and `_mysock_free_queue`.
- Checksum.Cksum: a negative length, for which the routine reads nothing.
- Checksum.TcpChecksum: what the machine makes of a signed overflow, which counts as a failure, and the assertion on the alignment of the packet's address.
- StcpUndisciplined.EarlyClientCloseOverreads: what follows where the octets behind the buffer happen to sum like the payload; a run ends at the read.
- ArpHandling.HandleFails: the two bounds meet only under the assumption of ArpHandling.HandleFailsExactly, since a condition on the requests as sets cannot see the order in which packets are answered; ArpWalk.HandleWalks is exact for every router.
- What the router does after it has used a request it freed: the step fails there.
- ARP requests as frames: the target address and the interface address in them, and what an ARP request from another host is answered with.
- The construction of ICMP messages in the router beyond source, destination and time to live, and the null route the router dereferences when the sender of a packet it complains about has no route.
- The request list, the chains of the hash table and the list of completed connections are sequences held in a field; the aliasing of their nodes is modelled only for the packet queue.
- ListenQueue.ListenQueue.Enqueue: the descriptor and whether one could be made are parameters, and the network state of the new socket is not modelled.
- ListenQueueSpec.MovedPoolFails: `realloc` may grow the pool in place, and then the old pointers stay good; the model always takes the pool to move.
- `_mysock_close_passive_socket`, and a backlog of 2^32 - 1, where the limit wraps to 0.
- The hash function for negative keys, and memory exhaustion anywhere.
- The first two assignments, `sr_load_rt`, the dump and print functions, and the socket layer.
