# aionetiface: protocol models and proofs

aionetiface brings its own network protocols: a TCP stack in user space that
sends and receives raw frames, the packet formats under it, and a set of
algorithms around them (clock agreement, a socket relay, STUN, address blocks
and route pools, acknowledged datagrams, node addresses).  This project models
their logic in Dafny and proves what they promise.

`dafny verify dfyconfig.toml` checks everything.

## How it is built

**The TCP stack.**  `TcpState.dfy` is the connection object, its fields updated
in place; every method computes a function of `TcpMachine.dfy`.  Those functions
take the arithmetic as a parameter, 32-bit or unbounded.  `TcpNetwork.dfy` joins
two connections by a network that remembers everything sent: a run is any list
of opens, writes, reads, closes, retransmissions, deliveries, late duplicates,
losses and third-party segments.  `TcpInvariant.dfy` states, on the unbounded
machine, what ties the two ends and the wire together; `TcpSteps`, `TcpSafety`
and `TcpRuns` prove that every step keeps it.  `TcpRefine` and `TcpSimulation`
prove that the 32-bit machine is the unbounded one reduced modulo 2^32, as long
as each direction carries at most 2^32 - 65537 bytes.  `TcpTheorems`,
`TcpDoneSending`, `TcpEndOfStream`, `TcpReset`, `TcpQuiescence` (with
`TcpLossFree`) and `TcpMeasure` draw the conclusions for the 32-bit connections;
`TcpTable` lays every call and segment out in one step, as RFC 9293 section 3.10
does, and `TcpDriver` runs two connection objects to exactly the states these
speak of.  `TcpOvertake`, `TcpUnsent`, `TcpStaleBlock` and `TcpOversize` hold what
is false of the code, each a concrete run, with the exact condition beside it or
in the theorems.

**The formats under it.**  `InternetChecksum`, `Ipv4`, `TcpCodec`, `Link` and
`Connection` pack and parse, from segment to frame and back; `TcpWire` ties them
to the stack: the network of segments stands for a network of frames.
`WireFormat` and `TcpOptions` hold both directions against the octets of the
standards themselves.

**The rest** is a module each: `Marzullo`, `Relay` (with `RelayLog`), `Stun` with
`StunFormat`, `StunMsg` and `StunReply`, `IpRange`, `RoutePool`, `AckUdp`,
`NodeAddr`, with `Bytes`, `Bitwise` and `Text` as common ground.

## Where the code and its words differ

The model follows the code.

- A comment at src/aionetiface/net/pcap/tcp/state.py:464 says an ACK that covers the
  outstanding block clears it.  It does not when it also acknowledges the FIN
  (`CoveredBlockClearedIff`, `BlockLeftBehind`); the same block is then outstanding
  for good, and every round of the timer sends it (`StaleForever`) until the timer
  finds the state CLOSED before a wait.
- The FIN comparison at src/aionetiface/net/pcap/tcp/state.py:485 is not reduced modulo
  2^32.  It does no harm, because this stack never sends a FIN with a payload
  (`Refines`).
- In SYN_RECEIVED neither the payload nor the FIN is compared with rcv_nxt.  The
  payload is safe, because the peer can have sent only one block by then
  (`OnlyFirstBlock`); the FIN is not (`FinOvertakesData`, `FinCompleteIff`).  What is
  missing then never arrives (`FinDecidesForGood`, `ByteNeverArrives`).
- The branch for a FIN already received at src/aionetiface/net/pcap/tcp/state.py:493 is
  never taken: that state is FIN_WAIT_1, which a received FIN leaves
  (`NoFinInFinWait1`).
- RFC 9293 section 3.6 has a close deliver what was written before it.  Here
  `close` sends the FIN at once, and bytes still in `send_buf` are never sent.  Once
  the FIN is acknowledged the peer has everything written before the call if and
  only if `send_buf` was empty at the call (`CloseDeliversIff`); `CloseLosesBuffered`
  is a run in which every segment arrives in order and a byte is missing.  When
  the peer closes first, what is buffered is stranded too (`StrandedInCloseWait`,
  `PeerCloseStrands`).
- An advertised MSS above 65495 lets `flush_send` form a block that no IPv4 packet
  holds; packing it raises out of `flush_outbox` (`OversizedBlock`, `FramesCarryIff`).
- RFC 9293 section 3.10.7 has CLOSED and LISTEN ignore a RST.  Here they obey it, from
  any address, so that one RST ends a listener (`RstTable` says exactly which RSTs are
  obeyed, `ResetForGood` what follows).
- The RST a listener queues has no address to go to and is dropped
  (src/aionetiface/net/pcap/tcp/conn.py:339; `ListenerRstDropped`, `NoRstSent`).
- The fold after the loop of `checksum16` never runs (`Checksum16`).
- `parse_node_addr` ignores what `validate_node_addr` returns
  (src/aionetiface/net/topology.py:274), so out-of-range fields are not rejected:
  `BadPortComesThrough` hands on port 70000.  What comes out is valid if and only if
  every record that survives parsing is in range (`DecodedValidIff`).
- `get_route_info` compares a host's number within its route with a count over the
  pool, so that past the first route its assertion lets some hosts through that lie
  behind the route (`LookupMeans`, `BoundIff`).
- A pool whose route list held a route without WAN addresses before one with some
  would fail when iterated (`IterationIff`).  Route's constructor refuses such a
  route (src/aionetiface/nic/route/route.py:116-119), so pools of constructed
  routes always iterate (`ConstructedIterates`).

## Model

| member | source | states |
|---|---|---|
| `TcpTheorems.StreamSafety` | src/aionetiface/net/pcap/tcp/state.py:228-252 | over every run of the network (loss, duplication, reordering, both closes, forged RSTs, every way of opening) what each side has received is a prefix of what its peer wrote |
| `TcpTheorems.GracefulClose` | src/aionetiface/net/pcap/tcp/state.py:484-541 | in every reachable state the close flags agree with the state, and once a side's FIN is acknowledged (FIN_WAIT_2, TIME_WAIT, or CLOSED out of LAST_ACK) its peer has taken the FIN and every byte emitted |
| `TcpTheorems.FinFreezesSndNxt` | src/aionetiface/net/pcap/tcp/state.py:254-275 | once the FIN is out no later action, of any kind, moves snd_nxt or takes the side back to a sending state |
| `TcpTheorems.NoFinInFinWait1` | src/aionetiface/net/pcap/tcp/state.py:491-496 | in every reachable state and for any segment, FIN_WAIT_1 is never found with the peer's FIN received when the close transitions are looked at, so the first branch there is dead |
| `TcpDoneSending.AllDeliveredIff` | src/aionetiface/net/pcap/tcp/state.py:228-275 | in every reachable state with a side's FIN acknowledged, the peer has received all that was written if and only if send_buf is empty |
| `TcpDoneSending.CloseDeliversIff` | src/aionetiface/net/pcap/tcp/state.py:254-275 | for a close that sends a FIN and every continuation in which that FIN is acknowledged: the peer has received exactly what was emitted before the call, and so all that was written before it if and only if send_buf was empty at the call |
| `TcpDoneSending.NothingMoreSent` | src/aionetiface/net/pcap/tcp/state.py:228-275 | a side that has left ESTABLISHED, by either side's close, emits no further byte in any continuation, and with its FIN acknowledged the FIN stays acknowledged and the outstanding block the same |
| `TcpDoneSending.StrandedInCloseWait` | src/aionetiface/net/pcap/tcp/state.py:228-252 | in CLOSE_WAIT every write raises, and in every continuation the peer's received bytes are at most those emitted so far: what is in send_buf never arrives |
| `TcpDoneSending.StaleForever` | src/aionetiface/net/pcap/tcp/conn.py:374-388 | a block still outstanding when the FIN is acknowledged is the same block in every continuation, and every round of the timer, from its wait on, queues exactly that block at its own number |
| `TcpUnsent.CloseLosesBuffered` | src/aionetiface/net/pcap/tcp/state.py:254-275 | a concrete run: a second byte is written while the first is outstanding, the side closes, everything sent arrives oldest first and is acknowledged, the FIN too, nothing is in flight, and the second byte is still in send_buf |
| `TcpUnsent.PeerCloseStrands` | src/aionetiface/net/pcap/tcp/state.py:228-252 | a concrete run into CLOSE_WAIT with a byte in send_buf |
| `TcpDriver.Drive` | src/aionetiface/net/pcap/tcp/conn.py:332-388 | for any list of actions, two connection objects joined by the network end in exactly the state the model reaches, and each side has received a prefix of what its peer wrote |
| `TcpDriver.Endpoint.Perform` | src/aionetiface/net/pcap/tcp/conn.py:332-388 | one action carried out on a connection object, its outbox flushed: the whole new state and what is on the wire |
| `TcpTheorems.SequenceSandwich` | src/aionetiface/net/pcap/tcp/state.py:337-437 | two synchronised sides (past SYN_SENT and not CLOSED) agree on the initial numbers, and modulo 2^32 snd_una <= the peer's rcv_nxt <= snd_nxt |
| `TcpTheorems.EstablishedMeansLatched` | src/aionetiface/net/pcap/tcp/state.py:359-429 | a side in ESTABLISHED has a peer that has latched its ISS and is past LISTEN and SYN_SENT |
| `TcpTheorems.SenderConservation` | src/aionetiface/net/pcap/tcp/state.py:145-177 | written is emitted followed by send_buf; in ESTABLISHED a block is outstanding exactly when snd_una differs from snd_nxt and then ends at snd_nxt; every payload ever sent, retransmissions included, is the slice of the written stream its sequence number names |
| `TcpTheorems.FinCompleteIff` | src/aionetiface/net/pcap/tcp/state.py:431-437 | when a FIN is consumed the receiver has everything emitted if and only if the FIN's number was rcv_nxt; SYN_RECEIVED makes no such check |
| `TcpOvertake.FinOvertakesData` | src/aionetiface/net/pcap/tcp/state.py:430-437 | a concrete run in which a FIN ends the handshake and overtakes the first block: the byte is counted as acknowledged and never arrives, though nothing is dropped |
| `TcpOvertake.ByteNeverArrives` | src/aionetiface/net/pcap/tcp/state.py:430-437 | in every continuation of that run, whatever is delivered or resent, the receiver has nothing |
| `TcpEndOfStream.FinEndsStream` | src/aionetiface/net/pcap/tcp/state.py:474-524 | once a side has taken its peer's FIN, in order or not, what it has received is the same in every continuation |
| `TcpEndOfStream.FinDecidesForGood` | src/aionetiface/net/pcap/tcp/state.py:431-437 | in every continuation of a run in which a FIN is consumed, the receiver has everything its peer emitted if and only if that FIN's number was rcv_nxt |
| `TcpTheorems.NoRstSent` | src/aionetiface/net/pcap/tcp/conn.py:336-342 | in every reachable state a listener has no peer address, nothing is left in an outbox, and no RST of either side was ever sent |
| `TcpTheorems.ListenerRstDropped` | src/aionetiface/net/pcap/tcp/conn.py:336-342 | a listener that takes an ACK queues exactly one RST, and the flush drops it: neither the connection nor the wire has changed |
| `TcpStaleBlock.CoveredBlockClearedIff` | src/aionetiface/net/pcap/tcp/state.py:464-469 | in every reachable state, a new acknowledgment that covers the outstanding block clears it if and only if it does not also acknowledge the FIN; the comment there promises it always does |
| `TcpStaleBlock.BlockLeftBehind` | src/aionetiface/net/pcap/tcp/state.py:464-469 | a concrete run after which the peer has byte and FIN, both are acknowledged, and the block is still outstanding and resent |
| `TcpQuiescence.Quiescence` | src/aionetiface/net/pcap/tcp/state.py:199-252 | in a loss-free run, with any order and duplication, once both sides are open (and not both listening) and nothing is in flight, both are ESTABLISHED, both send buffers are empty, no block is outstanding and everything written has been received, both ways (what arrives at a side not yet opened counts as lost; segments of any size, see OversizedBlock) |
| `TcpMeasure.DeliveryDecreases` | src/aionetiface/net/pcap/tcp/state.py:279-319 | in every reachable state, delivering anything that is in flight strictly decreases a natural number made of what is in flight and what is unsent |
| `TcpMeasure.ExchangeEnds` | src/aionetiface/net/pcap/tcp/state.py:405-505 | so without timers and new calls there are at most as many further deliveries as that number says |
| `TcpWire.MssRespected` | src/aionetiface/net/pcap/tcp/state.py:242-252 | in every run no segment carries more data than its receiver advertised (or the floor of 536), every SYN carries its sender's MSS, and every field fits its place |
| `TcpWire.FramesCarrySegments` | src/aionetiface/net/pcap/tcp/conn.py:332-357 | when neither side advertises an MSS above 65495, every segment either side sends in any run, packed into a frame on Ethernet, DLT_NULL or DLT_LOOP, is decoded by the peer as exactly that segment |
| `TcpOversize.FramesCarryIff` | src/aionetiface/net/pcap/tcp/conn.py:332-357 | that holds for every run if and only if neither side advertises an MSS above 65495 |
| `TcpOversize.OversizedBlock` | src/aionetiface/net/pcap/tcp/state.py:242-252 | a run in which such an MSS makes a data segment that no IPv4 packet can carry, so packing it raises |
| `TcpSimulation.Refines` | src/aionetiface/net/pcap/tcp/state.py:67-74 | every 32-bit run of streams of at most 2^32 - 65537 bytes in each direction is the reduction modulo 2^32 of a run of the same code on unbounded numbers, in which the invariant holds |
| `TcpRuns.RunInv` | src/aionetiface/net/pcap/tcp/state.py:277-505 | the invariant tying the two endpoints and everything ever sent holds in every reachable state of the unbounded machine |
| `TcpSafety.SegmentKeeps` | src/aionetiface/net/pcap/tcp/state.py:279-319 | delivering any segment the peer ever sent, however late, keeps the invariant |
| `TcpSafety.OnlyFirstBlock` | src/aionetiface/net/pcap/tcp/state.py:430-434 | while nothing has been received, every data segment the peer can have sent starts at irs + 1: the reason SYN_RECEIVED may take a payload without looking at its number |
| `SeqArith.WindowExact` | src/aionetiface/net/pcap/tcp/state.py:67-74 | the 32-bit window test decides exactly the integer comparison it stands for, for windows shorter than 2^32 |
| `TcpTable.InitTable` | src/aionetiface/net/pcap/tcp/state.py:92-141 | every field of a new connection |
| `TcpTable.OpenTable` | src/aionetiface/net/pcap/tcp/state.py:199-219 | both opens need CLOSED; the active one leaves SYN_SENT with the SYN and its MSS option queued, field by field |
| `TcpTable.WriteTable` | src/aionetiface/net/pcap/tcp/state.py:228-252 | the five states that take a write; in ESTABLISHED with nothing outstanding the first peer_mss bytes leave as one PSH|ACK segment at snd_nxt and are kept for the timer, otherwise everything is buffered |
| `TcpTable.CloseTable` | src/aionetiface/net/pcap/tcp/state.py:254-275 | for every state the exact block after a close, the FIN|ACK at snd_nxt included |
| `TcpTable.PopReadTable` | src/aionetiface/net/pcap/tcp/state.py:556-564 | exactly the first min(n, size) bytes come out and the rest stays |
| `TcpTable.RetransmitTable` | src/aionetiface/net/pcap/tcp/conn.py:373-389 | the outstanding block queued at its own number with the current ACK, or nothing |
| `TcpTable.StrangerTable` | src/aionetiface/net/pcap/tcp/state.py:285-289 | a connection with a peer ignores every segment from elsewhere |
| `TcpTable.RstTable` | src/aionetiface/net/pcap/tcp/state.py:290-335 | a RST closes and aborts the connection in every state, in SYN_SENT if and only if it acknowledges iss + 1; otherwise nothing changes and the verdict is false |
| `TcpTable.ClosedTable` | src/aionetiface/net/pcap/tcp/state.py:294-297 | CLOSED ignores everything else |
| `TcpTable.ListenTable` | src/aionetiface/net/pcap/tcp/state.py:337-357 | the RST answer to an ACK with its number, the whole block after a SYN, and nothing for the rest |
| `TcpTable.SynSentTable` | src/aionetiface/net/pcap/tcp/state.py:359-403 | the whole block after a SYN+ACK, a SYN alone, and every refused segment |
| `TcpTable.SynReceivedTable` | src/aionetiface/net/pcap/tcp/state.py:405-438 | the whole block after a repeated SYN, the ACK of the SYN with any payload and FIN, and every refused segment |
| `TcpTable.TimeWaitTable` | src/aionetiface/net/pcap/tcp/state.py:305-318 | a FIN that comes again is acknowledged again and nothing else happens |
| `TcpTable.WindowTable` | src/aionetiface/net/pcap/tcp/state.py:440-524 | in the six states with a window test: the test, snd_una and the block, the payload, the FIN, the state, the ACKs queued and the next block, all fields at once, for any segment |
| `TcpReset.ResetForGood` | src/aionetiface/net/pcap/tcp/state.py:321-335 | in every continuation after a RST that is obeyed the side is closed and aborted and has received nothing more |
| `TcpReset.RstRefused` | src/aionetiface/net/pcap/tcp/state.py:321-335 | a RST that is not obeyed leaves the whole system as it was |
| `TcpReset.TablesApply` | src/aionetiface/net/pcap/tcp/state.py:279-319 | what the tables ask of numbers and of the MSS holds in every reachable state |
| `TcpHandshake.Handshake` | src/aionetiface/net/pcap/tcp/state.py:199-219 | the state both sides and the wire are in after a client's and a listener's handshake, for every configuration |
| `TcpState.TcpState.constructor` | src/aionetiface/net/pcap/tcp/state.py:92-141 | a new connection is the initial control block |
| `TcpState.TcpState.Emit` | src/aionetiface/net/pcap/tcp/state.py:145-177 | queues one segment at snd_nxt, advances snd_nxt, tracks the block and the FIN: the whole new state |
| `TcpState.TcpState.EmitRst` | src/aionetiface/net/pcap/tcp/state.py:179-195 | queues the RST a listener answers an ACK with, nothing else changes |
| `TcpState.TcpState.EmitPureAck` | src/aionetiface/net/pcap/tcp/state.py:526-533 | queues an ACK of rcv_nxt, nothing else changes |
| `TcpState.TcpState.EmitSynAck` | src/aionetiface/net/pcap/tcp/state.py:412-418 | queues a SYN+ACK that repeats the ISS without advancing snd_nxt |
| `TcpState.TcpState.OpenActive` | src/aionetiface/net/pcap/tcp/state.py:199-226 | CLOSED to SYN_SENT with the SYN queued, or an error that changes nothing |
| `TcpState.TcpState.OpenListen` | src/aionetiface/net/pcap/tcp/state.py:215-219 | CLOSED to LISTEN, or an error that changes nothing |
| `TcpState.TcpState.Write` | src/aionetiface/net/pcap/tcp/state.py:228-240 | buffers, and sends when established; an error in the closing states changes nothing |
| `TcpState.TcpState.FlushSend` | src/aionetiface/net/pcap/tcp/state.py:242-252 | at most one block, of at most the peer's MSS, leaves the send buffer, and only when none is outstanding |
| `TcpState.TcpState.Close` | src/aionetiface/net/pcap/tcp/state.py:254-275 | the FIN and the state change for each state |
| `TcpState.TcpState.PopRead` | src/aionetiface/net/pcap/tcp/state.py:556-564 | takes a prefix of the read buffer and leaves the rest |
| `TcpState.TcpState.Retransmit` | src/aionetiface/net/pcap/tcp/conn.py:373-389 | one timer round, from its wait on, in any state: queues the outstanding block once more at its own number; nothing else changes |
| `TcpState.TcpState.OnSegment` | src/aionetiface/net/pcap/tcp/state.py:279-319 | the whole new state and the verdict for any segment from any address in any state |
| `TcpState.TcpState.HandleRst` | src/aionetiface/net/pcap/tcp/state.py:321-335 | in SYN_SENT only a RST that acknowledges the SYN aborts; elsewhere any does |
| `TcpState.TcpState.OnListen` | src/aionetiface/net/pcap/tcp/state.py:337-357 | ACK answered by RST, a SYN latched and answered by SYN+ACK, anything else ignored |
| `TcpState.TcpState.OnSynSent` | src/aionetiface/net/pcap/tcp/state.py:359-403 | three-way completion or simultaneous open, with the first block sent at once |
| `TcpState.TcpState.ReadPeerMss` | src/aionetiface/net/pcap/tcp/state.py:543-552 | the MSS option of a SYN, at least 536 |
| `TcpState.TcpState.OnSynReceived` | src/aionetiface/net/pcap/tcp/state.py:405-438 | repeated SYN answered, the ACK of the SYN establishes, payload and FIN taken unchecked |
| `TcpState.TcpState.TakeAck` | src/aionetiface/net/pcap/tcp/state.py:456-472 | a new acknowledgment moves snd_una and clears the block when it ends where the block ends |
| `TcpState.TcpState.TakeData` | src/aionetiface/net/pcap/tcp/state.py:474-482 | in-order payload taken and acknowledged, other payload only acknowledged |
| `TcpState.TcpState.TakeFin` | src/aionetiface/net/pcap/tcp/state.py:484-505 | in-order FIN consumed, close transitions made, then a block sent |
| `TcpState.TcpState.OnEstablished` | src/aionetiface/net/pcap/tcp/state.py:440-505 | window test, acknowledgment, payload, FIN, transitions and sending in that order |
| `TcpState.TcpState.CloseTransitions` | src/aionetiface/net/pcap/tcp/state.py:491-500 | the three transitions an acknowledged FIN allows |
| `TcpState.TcpState.HandlePeerFin` | src/aionetiface/net/pcap/tcp/state.py:507-524 | a FIN is consumed once, acknowledged, and changes the state |
| `Segment.PadOptions` | src/aionetiface/net/pcap/tcp/segment.py:117-123 | options are kept, followed by fewer than four NOPs up to a multiple of four |
| `Segment.ParseOptions` | src/aionetiface/net/pcap/tcp/segment.py:131-154 | the loop yields the entries the recursive reading defines, up to EOL or the first malformed option |
| `Segment.MssOptionParses` | src/aionetiface/net/pcap/tcp/segment.py:126-162 | the advertised MSS survives encoding and parsing and needs no padding |
| `TcpOptions.OptionsRead` | src/aionetiface/net/pcap/tcp/segment.py:131-154 | any list of sound options, NOPs included, is read back in order, up to the end, the first option cut short, or an end-of-list octet |
| `TcpOptions.FirstFound` | src/aionetiface/net/pcap/tcp/segment.py:157-162 | the first option of a kind is found, and None means there is none |
| `WireFormat.WordSumMeans` | src/aionetiface/net/pcap/ip/ipv4.py:40-59 | the sum of words: high octet first, additive over parts of even length |
| `WireFormat.ChecksumMeans` | src/aionetiface/net/pcap/ip/ipv4.py:40-59 | the checksum completes the sum of the words to a multiple of 65535 |
| `InternetChecksum.Checksum16` | src/aionetiface/net/pcap/ip/ipv4.py:40-59 | the fold loop keeps the total in 16 bits, so the fold after it never runs, and returns the complement of the folded word sum |
| `InternetChecksum.VerifiesIff` | src/aionetiface/net/pcap/ip/ipv4.py:40-59 | the result is 0 exactly when the sum of the words is positive and divisible by 65535 (RFC 1071 section 1) |
| `InternetChecksum.PatchedVerifies` | src/aionetiface/net/pcap/ip/ipv4.py:83-96 | any buffer, of odd length too, verifies once its checksum is put into its zero checksum word |
| `InternetChecksum.ChangeDetected` | src/aionetiface/net/pcap/ip/ipv4.py:177-183 | a changed word is detected exactly when it differs modulo 65535 or only zeros are left |
| `Ipv4.PackedIpv4Verifies` | src/aionetiface/net/pcap/ip/ipv4.py:62-97 | every packet packed verifies, whatever follows it on the wire |
| `Ipv4.Ipv4RoundTrip` | src/aionetiface/net/pcap/ip/ipv4.py:137-174 | parsing what was packed, with any padding after it, gives every field and exactly the payload |
| `TcpCodec.FlagsBijection` | src/aionetiface/net/pcap/tcp/segment.py:42-50 | flag octets and sets of flags correspond one to one |
| `TcpCodec.PackedTcpVerifies` | src/aionetiface/net/pcap/tcp/segment.py:165-196 | every packed segment verifies under its IPv4 or IPv6 pseudo-header, odd payloads included |
| `TcpCodec.TcpRoundTrip` | src/aionetiface/net/pcap/tcp/segment.py:199-223 | parsing what was packed gives the same segment with NOP-padded options and the matching data offset |
| `TcpCodec.TcpChangeDetected` | src/aionetiface/net/pcap/tcp/segment.py:226-234 | a valid segment with one word replaced still verifies if and only if the words agree modulo 65535 |
| `Link.EthRoundTrip` | src/aionetiface/net/pcap/ip/eth.py:69-95 | a built frame has at least 60 octets and parses to its fields, the payload followed by the padding |
| `Link.StripWrap` | src/aionetiface/net/pcap/ip/eth.py:104-183 | stripping undoes wrapping on every supported datalink, up to Ethernet's padding |
| `WireFormat.ChecksumCovers` | src/aionetiface/net/pcap/tcp/segment.py:226-234 | a segment verifies if and only if source words, destination words, 6, length and segment words sum to a positive multiple of 65535, for IPv4 and IPv6 |
| `WireFormat.PackedSum` | src/aionetiface/net/pcap/tcp/segment.py:165-196 | every packed segment has that sum |
| `WireFormat.TcpLayout` | src/aionetiface/net/pcap/tcp/segment.py:165-196 | every field of a packed segment at its octets, flags bit by bit, options and payload |
| `WireFormat.TcpReads` | src/aionetiface/net/pcap/tcp/segment.py:199-223 | what is parsed is what the octets say, and exactly what is refused |
| `WireFormat.Ipv4Layout` | src/aionetiface/net/pcap/ip/ipv4.py:62-97 | every field of a packed packet at its octets, exactly when packing succeeds, and the header sum |
| `WireFormat.Ipv4Reads` | src/aionetiface/net/pcap/ip/ipv4.py:137-174 | what is parsed from headers of any length, and exactly what is refused |
| `WireFormat.Ipv4Valid` | src/aionetiface/net/pcap/ip/ipv4.py:177-183 | which buffers verify, in terms of the sum of their header words |
| `WireFormat.LinkLayout` | src/aionetiface/net/pcap/ip/eth.py:69-183 | the exact frame on each datalink: Ethernet header and zero padding, or the family in the right byte order |
| `WireFormat.LinkReads` | src/aionetiface/net/pcap/ip/eth.py:104-150 | which frames are stripped to IPv4 or IPv6 on each datalink, and which are refused |
| `WireFormat.FrameLayout` | src/aionetiface/net/pcap/tcp/conn.py:332-357 | a built Ethernet frame octet by octet: type, TTL 64, don't fragment, protocol 6, both addresses, the segment, zeros |
| `WireFormat.FrameReads` | src/aionetiface/net/pcap/tcp/conn.py:225-247 | a frame counts exactly when every layer parses, it is IPv4 and TCP, and it is for this host |
| `WireFormat.RoutedMeans` | src/aionetiface/net/pcap/tcp/conn.py:255-271 | a listener without a peer takes its port, a bound connection its four-tuple, and nothing else is taken |
| `WireFormat.FlushMeans` | src/aionetiface/net/pcap/tcp/conn.py:332-361 | every segment up to the first that cannot be framed goes out, that one is lost, the rest stays queued |
| `Connection.BuildFrameIff` | src/aionetiface/net/pcap/tcp/conn.py:332-357 | a segment can be framed if and only if its fields fit, its options take at most 40 octets, the packet stays below 65536 octets and the datalink is supported |
| `Connection.FrameRoundTrip` | src/aionetiface/net/pcap/tcp/conn.py:225-242 | the parse chain applied to the built frame gives the segment with NOP-padded options and both addresses, even when Ethernet pads the frame |
| `Connection.FrameReachesItsConnection` | src/aionetiface/net/pcap/tcp/simul_open.py:63-74 | a bound connection takes a frame exactly when its four-tuple mirrors the sender's |
| `Connection.Connection.FlushOutbox` | src/aionetiface/net/pcap/tcp/conn.py:332-361 | the queue goes out as frames in order; without a peer it is dropped; an exception keeps the rest queued |
| `Connection.Connection.ProcessFrame` | src/aionetiface/net/pcap/tcp/conn.py:212-278 | at most one segment reaches the state machine, chosen by datalink, protocol, address and four-tuple; a listener then locks to its peer |
| `Marzullo.MarzulloIntersection` | src/aionetiface/utility/sys_clock.py:33-91 | the loop computes the sweep over the sorted edges, fallback included |
| `Marzullo.Optimal` | src/aionetiface/utility/sys_clock.py:45-91 | for probes with lo <= hi the fallback is unreachable, every point of the result lies in the greatest number of probes, it is a maximal such stretch, and the first of the narrowest |
| `Marzullo.FallbackSpans` | src/aionetiface/utility/sys_clock.py:48-91 | no result for no intervals, and when the sweep closes no region the span of all of them |
| `Marzullo.SweepInvariant` | src/aionetiface/utility/sys_clock.py:62-82 | count, max_count, cur_lo and the best interval after every prefix of the edges |
| `Marzullo.RegionIsPeak` | src/aionetiface/utility/sys_clock.py:62-82 | every region of the greatest depth is one the sweep closes |
| `Relay.RunConserves` | src/aionetiface/net/selector_proxy.py:209-368 | in every run, errors included, what was sent to a socket is a prefix of what was read for it, and while the pair is open sent followed by buffered equals read, bytes for TCP and whole datagrams for UDP |
| `Relay.RunArms` | src/aionetiface/net/selector_proxy.py:296-360 | at every loop head a socket is armed for writing exactly when something is pending for it, as long as the selector can be changed |
| `Relay.EndOfStreamDrains` | src/aionetiface/net/selector_proxy.py:245-285 | a TCP end of stream without OS error closes the pair with every byte read from that side sent to the other |
| `RelayLog.EventTable` | src/aionetiface/net/selector_proxy.py:226-368 | one event in closed form: which events end the pair and empty it, and otherwise the exact buffer, registration and error count of both sockets |
| `RelayLog.EventLogged` | src/aionetiface/net/selector_proxy.py:93-123 | the relay's record grows by exactly what recv gave and what send took: the first min(n, offered) bytes of a stream, or one datagram |
| `RelayLog.RunLogged` | src/aionetiface/net/selector_proxy.py:209-368 | over every run the record of a socket equals what the system calls gave for it and took from it |
| `RelayLog.FlowConserved` | src/aionetiface/net/selector_proxy.py:209-368 | conservation on the system calls alone: what was taken is a prefix of what was given, and while the pair is open the rest is what is buffered |
| `RelayLog.StopsForGood` | src/aionetiface/net/selector_proxy.py:209-220 | a stop signal closes the pair, and a closed pair stays closed |
| `Relay.SelectorProxy.CopyLoop` | src/aionetiface/net/selector_proxy.py:209-368 | the loop over wake-ups computes the relay's transition for any answers of the operating system |
| `Relay.SelectorProxy.ReadFrom` | src/aionetiface/net/selector_proxy.py:235-336 | one read: enqueue and arm, drain and close, or count the UDP error |
| `Relay.SelectorProxy.WriteTo` | src/aionetiface/net/selector_proxy.py:339-368 | one write: disarm when empty, send, put a failed datagram back, close on a TCP error |
| `Relay.SelectorProxy.WriteChunkTo` | src/aionetiface/net/selector_proxy.py:93-123 | what send took leaves the head of the buffer; an unsent datagram goes back to the head |
| `Relay.SelectorProxy.EnqueueFor` | src/aionetiface/net/selector_proxy.py:73-83 | bytes are appended to the stream, a datagram to the queue |
| `Relay.SelectorProxy.ClosePair` | src/aionetiface/net/selector_proxy.py:21-40 | both sockets leave the pair and their buffers are discarded |
| `Bitwise.XorBufs` | src/aionetiface/utility/utils.py:510-525 | octet by octet up to the shorter string; one empty string is an error |
| `Bitwise.Unmasks` | src/aionetiface/utility/utils.py:510-525 | a mask at least as long as the data comes off again, and is visible unless it is all zeros |
| `Stun.AddrRoundTrip` | src/aionetiface/protocol/stun/stun_defs.py:204-269 | codes 0x0020, 0x0012 and 0x0016: encoding succeeds exactly when the mask reaches to the end, and decoding gives back the address and the port |
| `Stun.AddrXRoundTripIff` | src/aionetiface/protocol/stun/stun_defs.py:223-230 | code 0x8020 is decoded masked but encoded plain: the endpoint comes back exactly when the mask is zero over the fields |
| `StunFormat.OctetBits` | src/aionetiface/utility/utils.py:510-525 | octets are combined bit by bit, for exclusive or, or and and |
| `StunFormat.XorMeans` | src/aionetiface/utility/utils.py:510-525 | combining fails exactly when one string is empty and the other is not |
| `StunFormat.XoredReads` | src/aionetiface/protocol/stun/stun_defs.py:204-252 | codes 0x0020, 0x0012 and 0x0016 decode as section 15.2 of RFC 5389 says: port xor 0x2112, address xor cookie and transaction id, an error exactly for short data or masks |
| `StunFormat.PlainReads` | src/aionetiface/protocol/stun/stun_defs.py:216-252 | any other code but 0x8020 decodes the fields as they are |
| `StunFormat.FieldwiseReads` | src/aionetiface/protocol/stun/stun_defs.py:219-228 | code 0x8020 decodes both fields from the start of the cookie |
| `StunFormat.XoredWrites` | src/aionetiface/protocol/stun/stun_defs.py:254-269 | what the encoder writes for the three codes is that section's attribute |
| `StunFormat.FieldwiseWrites` | src/aionetiface/protocol/stun/stun_defs.py:254-269 | an address of the wrong length and a port out of range are errors; code 0x8020 is written unmasked |
| `StunReply.FreshMeans` | src/aionetiface/protocol/stun/stun_defs.py:290-314 | the cookie of a new message, and the stand-in of RFC 3489 mode |
| `StunReply.PackLayout` | src/aionetiface/protocol/stun/stun_defs.py:410-427 | type bits, length, cookie, transaction id and body at their octets |
| `StunReply.DecodeReads` | src/aionetiface/protocol/stun/stun_defs.py:429-449 | what a buffer changes in a message, and the one error |
| `StunReply.AttrLayout` | src/aionetiface/protocol/stun/stun_defs.py:320-346 | code, length, data and zeros up to a multiple of four |
| `StunReply.AttrReads` | src/aionetiface/protocol/stun/stun_defs.py:374-405 | the attribute at any cursor of any body, and where the next begins |
| `StunReply.FirstsDecide` | src/aionetiface/protocol/stun/stun_utils.py:17-49 | any attributes come to the first mapped and the first changed address, and to an error exactly when one of these two cannot be decoded |
| `StunReply.ReplyMeans` | src/aionetiface/protocol/stun/stun_utils.py:41-49 | when a reply fails, when the loop over it hangs, and what it reports otherwise |
| `Stun.ReadBack` | src/aionetiface/protocol/stun/stun_defs.py:374-405 | reading the body of any written attributes gives them back in order, whatever their lengths |
| `Stun.TerminationIff` | src/aionetiface/protocol/stun/stun_utils.py:45-47 | the attribute loop ends on every body of length n if and only if n leaves 0 or 1 modulo 4 |
| `StunMsg.StunMessage.WriteAttr` | src/aionetiface/protocol/stun/stun_defs.py:320-346 | appends one padded attribute and keeps msg_len in step; more than 65535 octets is an error |
| `StunMsg.StunMessage.ReadAttr` | src/aionetiface/protocol/stun/stun_defs.py:374-405 | reads the attribute at the cursor, advancing past its padding |
| `StunMsg.StunMessage.PackBytes` | src/aionetiface/protocol/stun/stun_defs.py:410-427 | type bits, length, cookie, transaction id and body, or an error when the length does not fit |
| `StunMsg.StunMessage.DecodeBytes` | src/aionetiface/protocol/stun/stun_defs.py:429-449 | takes the fields and body from a buffer and returns what follows, or fails on a length beyond it |
| `StunMsg.MessageRoundTrip` | src/aionetiface/protocol/stun/stun_defs.py:410-449 | packing and decoding give back the header fields, the attributes in order and the trailing octets |
| `StunMsg.StunProto` | src/aionetiface/protocol/stun/stun_utils.py:41-49 | the loop over a reply: the first mapped and changed addresses, a failure, or a hang |
| `StunMsg.MappedAddressArrives` | src/aionetiface/protocol/stun/stun_utils.py:17-49 | an XOR-MAPPED-ADDRESS with the octets of section 15.2 of RFC 5389 among any other attributes reaches the client as exactly that address and port |
| `IpRange.HammingWeight` | src/aionetiface/utility/utils.py:548-560 | Kernighan's loop counts the set bits |
| `IpRange.ClearsLowest` | src/aionetiface/utility/utils.py:556-559 | n & (n - 1) is smaller and has one bit less |
| `IpRange.NetmaskInverts` | src/aionetiface/net/ip_range.py:133-135 | counting the ones of a contiguous netmask gives back its host bits |
| `IpRange.GetBitsIsMod` | src/aionetiface/utility/utils.py:368-376 | masking the low bits is the remainder by a power of two |
| `IpRange.NewRange` | src/aionetiface/net/ip_range.py:62-184 | the stepwise constructor, with the bit count from Kernighan's loop, makes the block of the given address or fails as the code does |
| `IpRange.MadeIff` | src/aionetiface/net/ip_range.py:62-140 | a block is made exactly when the address fits its family, differs from the netmask, and the host bits asked for fit; then it has those host bits |
| `IpRange.MadeIsBlock` | src/aionetiface/net/ip_range.py:62-184 | the constructor splits the address into an aligned network and a host part and derives the host bits from a contiguous netmask |
| `IpRange.BlockShape` | src/aionetiface/net/ip_range.py:141-181 | the network is aligned to 2^bitlen and the comparison range is the whole block, unless all bits are host bits |
| `IpRange.EqualIffNested` | src/aionetiface/net/ip_range.py:322-324 | for two blocks of one family that are not the whole space, equality holds if and only if one contains the other |
| `IpRange.WholeSpaceEqualIff` | src/aionetiface/net/ip_range.py:160-181 | a block of all bits contains every block but equals exactly those whose network is at most 1 |
| `IpRange.IndexBijection` | src/aionetiface/net/ip_range.py:263-283 | indices 0.. count the hosts up and -1.. count them down, each running through all of them once |
| `IpRange.IpRangeIter.Next` | src/aionetiface/net/ip_range.py:31-41 | yields the hosts in order, forwards or backwards, then stops |
| `RoutePool.RoutePool.constructor` | src/aionetiface/nic/route/route_pool.py:59-91 | routes without repetition, len_list the prefix sums of their sizes |
| `RoutePool.KeptExactly` | src/aionetiface/nic/route/route_pool.py:66-72 | a route is kept if and only if it equals none kept before it, and the kept ones stay in order |
| `RoutePool.AllKept` | src/aionetiface/nic/route/route_pool.py:66-72 | when no route equals an earlier one the pool holds the routes given |
| `RoutePool.LookupMeans` | src/aionetiface/nic/route/route_pool.py:152-167 | exactly when a lookup fails its assertions, and the address otherwise |
| `RoutePool.BoundIff` | src/aionetiface/nic/route/route_pool.py:158-161 | the check refuses every host past the route's last if and only if the route is the first |
| `RoutePool.EveryHostVisited` | src/aionetiface/nic/route/route_pool.py:27-53 | iteration visits every host of every route kept, each right behind the hosts of the routes before, and nothing else |
| `RoutePool.RoutePool.GetRouteInfo` | src/aionetiface/nic/route/route_pool.py:152-176 | the address for a route offset and an absolute host offset, or the assertion or index error the code raises |
| `RoutePool.RoutePoolIter.Next` | src/aionetiface/nic/route/route_pool.py:27-53 | one forward step: the lookup at the pointers, then the pointers move on |
| `RoutePool.VisitAll` | src/aionetiface/nic/route/route_pool.py:215-216 | iterating over the pool visits what the step-by-step walk defines |
| `RoutePool.LenListIncreases` | src/aionetiface/nic/route/route_pool.py:74-91 | the prefix sum strictly increases at every route with WAN addresses |
| `RoutePool.IterationIff` | src/aionetiface/nic/route/route_pool.py:27-53 | forward iteration yields the concatenation of the routes' addresses, with every assertion holding, if and only if no route without WAN addresses comes before one with some |
| `RoutePool.ConstructedIterates` | src/aionetiface/nic/route/route.py:116-119 | for any pool of routes that Route's constructor lets through, iteration yields exactly the concatenation of the routes' addresses and len_list increases at every route |
| `RoutePool.NoAddressTwice` | src/aionetiface/nic/route/route_pool.py:67-72 | after duplicates are dropped no address is visited twice |
| `AckUdp.Reliable` | src/aionetiface/protocol/ack_udp.py:55-110 | over every run with distinct numbers and a network that loses, repeats and reorders, an event is set only after the peer handed up exactly that payload, and nothing is handed up that the peer did not send |
| `AckUdp.NoAckForAck` | src/aionetiface/protocol/ack_udp.py:34-49 | an ACK is sent exactly for a well-formed message under a number that is not one's own, and is itself recognised as an ACK |
| `AckUdp.PruneOnlySet` | src/aionetiface/protocol/ack_udp.py:94-100 | pruning drops only set events and changes no other |
| `AckUdp.FrameLayout` | src/aionetiface/protocol/ack_udp.py:24-49 | eight octets of number, high octet first, then the flag and the payload |
| `AckUdp.HandleTable` | src/aionetiface/protocol/ack_udp.py:55-110 | events, status, payload and ACK for any datagram, from its octets |
| `AckUdp.PruneMeans` | src/aionetiface/protocol/ack_udp.py:94-100 | up to a thousand events stay, of more only those not set |
| `AckUdp.TransmitsExactly` | src/aionetiface/protocol/ack_udp.py:148-176 | the worker transmits until its tries are used up or a wait ends the work, and not once more |
| `AckUdp.AllTriesUsed` | src/aionetiface/protocol/ack_udp.py:148-176 | with nothing but time-outs and no time limit it transmits exactly max(1, tries) times |
| `AckUdp.FramesDecode` | src/aionetiface/protocol/ack_udp.py:24-49 | messages and ACKs decode to what they were made of |
| `AckUdp.AckUdp.HandleAck` | src/aionetiface/protocol/ack_udp.py:55-110 | the new events, the status, the payload and the ACK for any datagram |
| `AckUdp.AckUdp.Register` | src/aionetiface/protocol/ack_udp.py:131-133 | a new message's number gets an event that is not set; no other event changes |
| `AckUdp.AckUdp.Worker` | src/aionetiface/protocol/ack_udp.py:136-180 | transmits at least once and at most max(1, tries) times, and removes its entry |
| `Text.SplitJoin` | src/aionetiface/net/topology.py:121-142 | splitting a joined list of parts that do not hold the delimiter gives back the parts |
| `Text.DecRoundTrip` | src/aionetiface/utility/type_conv.py:45-47 | printed decimal numbers are numeric and parse to themselves |
| `Text.DecDigits` | src/aionetiface/utility/type_conv.py:45-47 | decimal digits, the most significant first |
| `Text.IntReads` | src/aionetiface/utility/type_conv.py:45-47 | a whole number is digits with or without a sign, and nothing else |
| `NodeAddr.NodeAddrRoundTrip` | src/aionetiface/net/topology.py:121-276 | parsing a printed address restores both interface tables, the keys, both hint lists and the OS, in the 4-, 6- and 7-part shapes |
| `NodeAddr.RecordParses` | src/aionetiface/net/topology.py:184-271 | a printed record comes back field by field (NAT type 0 as the default type) exactly when its delta is not negative and both texts are addresses, and is dropped otherwise |
| `NodeAddr.EntryReads` | src/aionetiface/net/topology.py:184-271 | any entry of comma-free fields, eight to ten of them: when it is understood and what each field becomes |
| `NodeAddr.RecordText` | src/aionetiface/net/topology.py:478-493 | a record as text, field by field |
| `NodeAddr.SectionText` | src/aionetiface/net/topology.py:540-549 | records between bars, the sentinel for none |
| `NodeAddr.AddressText` | src/aionetiface/net/topology.py:536-563 | the printed address in its three shapes |
| `NodeAddr.HintText` | src/aionetiface/net/topology.py:319-335 | a hint and a list of hints as text |
| `NodeAddr.HintReads` | src/aionetiface/net/topology.py:104-118 | any entry of comma-free fields: when it is a hint, and which |
| `NodeAddr.UseableMeans` | src/aionetiface/net/topology.py:326-334 | exactly the hints with host and port are kept, in order |
| `NodeAddr.RestoredExactly` | src/aionetiface/net/topology.py:269-271 | with distinct interface indices the table holds exactly the understood records |
| `NodeAddr.SurvivorsRestored` | src/aionetiface/net/topology.py:269-271 | with repeated interface indices too, the table holds exactly the understood records that no later understood record of the same index replaces |
| `NodeAddr.ValidateNodeAddr` | src/aionetiface/net/topology.py:28-84 | the loops accept exactly the nodes whose every interface passes every range test |
| `NodeAddr.DecodedValidIff` | src/aionetiface/net/topology.py:28-84 | what a printed address decodes to passes validation if and only if every surviving record has ports, NAT type, delta and prefix length in range and at least one port |
| `NodeAddr.DistinctValidIff` | src/aionetiface/net/topology.py:28-84 | when no interface is announced twice, it passes if and only if every understood record is in range |
| `NodeAddr.BadPortComesThrough` | src/aionetiface/net/topology.py:273-276 | a printed record with port 70000 is restored and handed on although validation rejects it |
| `NodeAddr.HintsRoundTrip` | src/aionetiface/net/topology.py:87-118 | hints come back in order, without those that name no host or no port |
| `NodeAddr.LaterSectionsKeep` | src/aionetiface/net/topology.py:124-134 | appending hint sections, or the OS after them, changes nothing decoded from the earlier sections of any address |
| `NodeAddr.ParseAddress` | src/aionetiface/net/topology.py:121-276 | the parser's loops compute the decoding of any text |
| `NodeAddr.MakeAddress` | src/aionetiface/net/topology.py:402-563 | the printer's assembly of sections, hints and OS |
| `NodeAddr.EncodeServerHints` | src/aionetiface/net/topology.py:319-335 | the loop prints the usable hints, or the sentinel |
| `NodeAddr.ParseServerHints` | src/aionetiface/net/topology.py:87-118 | the loop keeps the well-formed entries in order |

## Left out

- Clocks, randomness, sockets, selectors, pcap and the event loop: what they
  would answer is a parameter or an input of the run (the ISS, the readiness and
  results of system calls, the waits of a worker, the transaction id).
- Streams of more than 2^32 - 65537 bytes in one direction: the run theorems about
  32-bit numbers stop short of them, because the 32-bit tests are then ambiguous.
- TcpTheorems.SequenceSandwich: says nothing of a side back in CLOSED, whose numbers
  stay as they were while its peer's may move on.
- Connection.Connection.FlushOutbox: the destination MAC, which the code looks up, is a
  parameter, and an error of the send itself, which the code swallows, is not modelled.
- Connection.Connection.ProcessFrame: ARP frames and learning MACs from them are left out.
- Marzullo: the intervals are over reals where the code has floats; rounding is left out.
- A second connection on the same control block after CLOSED, TIME_WAIT expiry,
  congestion control and timer arithmetic.
- TcpState.TcpState.Retransmit: the loop around a round.  It ends when it finds the
  state CLOSED before a wait, so the code makes at most one round in CLOSED; the runs
  here allow any number, so what is proved of every run covers the code's.
- Progress under loss: SYN and FIN are never retransmitted, so it does not hold.
- The ARP cache and the choice of the destination MAC: the MAC is a parameter.
- IPv6 packets: only the pseudo-header is modelled, as the stack sends IPv4 only.
- `pack_tcp_segment` also stores data_offset and checksum in the segment; the
  model returns the octets only.
- TcpCodec.PackTcp: addresses are four or sixteen octets by type; text forms and
  `struct`'s silent padding of other lengths are not modelled.
- StunMsg.StunProto: stops with Hangs where the original would loop for ever.
- StunMsg.StunMessage.WriteAttr: takes the attribute's octets; the `fmt` argument and
  the address-tuple argument only choose how those octets are made.
- Relay.RunArms: is stated for runs in which changing a selector entry does not
  fail; the code skips arming when it does.
- Relay: exceptions of the selector that the loop itself does not catch end it,
  as a stop signal does; logging, idle counting and opening the reverse leg.
- IpRange.NewRange: starts from the parsed address and bit count; text forms, the error
  for an ambiguous integer and the privacy flags are left out.
- NodeAddr.MakeAddress: the records are given; deriving them from interfaces (the IPv6
  override, port fallbacks) would only add branches.
- NodeAddr: IP texts are accepted by an arbitrary predicate; `int` is modelled as
  an optional sign and digits, without blanks or underscores.
- RoutePool: routes of more than 2^63 hosts, for which Python's `len` raises;
  indexing, `pop` and reverse iteration; comparison of routes by identity.
- IpRange: text parsing, ordering, hashing, privacy classification and
  dictionaries.
- AckUdp.Reliable: numbers are distinct over both ends; with 64-bit random
  numbers the code does not enforce it.  TURN's own framing hooks are left out.
- HTTP, DNS, NAT classification, firewall and installer code, command parsing.
