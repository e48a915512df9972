# Model of the tun2http relay

`tun2http` terminates the TCP, UDP and ICMP traffic of an Android tun device in user space and relays it to
ordinary sockets. This project models it in Dafny and proves what it keeps.

## Layout

| file | content |
|---|---|
| `Words.dfy`, `Bytes.dfy`, `Lists.dfy`, `Flows.dfy` | machine words with their wrap-around, words as bytes and C strings, list values, addresses and ports |
| `Serial.dfy` | `compare_u32` and serial numbers |
| `Reassembly.dfy`, `Segmentation.dfy` | the queue of out-of-order segments, the forwarding pass, order independence |
| `Windows.dfy` | send and receive windows |
| `Tcp.dfy` | the TCP session as a state machine on values: one function for each entry point of `tcp.c` |
| `TcpSafety.dfy` | coupling of socket, state and queue, progress, flow control: what every step keeps |
| `TcpBooks.dfy` | sequence accounting over all runs |
| `TcpDelivery.dfy`, `TcpRuns.dfy` | where the queue stands in the stream, delivery over whole runs |
| `TcpTunnel.dfy`, `TcpProxied.dfy` | HTTPS sessions from the SYN through the tunnel, and what they relay |
| `TcpOrder.dfy` | the order of the queue on every port, and where a partly sent segment ends |
| `TcpAcks.dfy` | what is acknowledged, and when that is more than was handed on |
| `TcpReads.dfy` | from the server to the client: the bytes read are the bytes written |
| `TcpWindows.dfy` | the window advertised by the peer, flow control, the window announced |
| `TcpFlags.dfy`, `TcpLives.dfy` | what each step writes and in which order; how sessions are established and closed |
| `TcpPolling.dfy` | the poll set-up and keep-alives |
| `TcpSynData.dfy`, `TcpLifetime.dfy`, `SessionLifetime.dfy` | data on a SYN; when sessions expire and what keeps them alive |
| `TcpSession.dfy` | the same session as a class with the linked segment list of the C code; every method is proved to do what the function on values does |
| `Sessions.dfy`, `SessionTable.dfy` | the sessions of all three protocols, and the singly linked session list of `session.c` pruned in place |
| `Checksums.dfy`, `Packets.dfy` | the Internet checksum, and the packets written to the tun device byte by byte |
| `Tls.dfy`, `ClientHellos.dfy` | the server name parser, and ClientHello records it inverts |
| `Dns.dfy`, `DnsNames.dfy`, `DnsLoops.dfy` | the name decoder, the names it reads, and when it ends |

The environment is nondeterministic input: what `recv`, `send`, `write` and `epoll_ctl` answer, the event bits,
the free socket buffer and the clock are fields of the events, so every theorem over runs holds for all of them.

## What the code does not do

Some statements one would expect are false of the code. Each is given with the condition on which it depends, an
if and only if wherever the text says exactly, and an example.

- A failing `send` loses data. The test `sent > len` (tcp.c:325) compares a signed with an unsigned size, so -1
  counts as everything sent and the error branch behind it is dead. `TcpRuns.Delivery` says exactly when the
  socket got all acknowledged bytes; `TcpRuns.FailedSendIsAcknowledged` is the example.
- A byte that was not handed on is acknowledged exactly if the SYN is counted a second time, or a FIN is counted
  although none came with the number of the next byte (`TcpAcks.HonestFromSynIff`): the code does not compare the
  sequence number of a FIN, and an HTTPS session goes back to LISTEN. Examples are `TcpAcks.FinBehindGap` and
  `TcpAcks.SecondSynAcknowledged`. Without a FIN it never happens on any port but that of HTTPS.
- A partly sent segment ends at remote_seq unless the SYN is counted meanwhile, which takes a second exit from
  LISTEN of an HTTPS session (`TcpOrder.AlignedFromSynIff`, example `TcpOrder.OvertakenBySecondSyn`).
- An HTTPS session keeps the closed forms of its sequence numbers exactly if the relay answers the SYN before it
  asks the proxy for the tunnel (`TcpTunnel.TunnelAccountsIff`, example `TcpTunnel.TunnelSkipsSyn`). If it asks before
  the SYN is counted, nothing is relayed through the tunnel (`TcpProxied.NothingThroughTunnel`). A session asked for
  its tunnel that then answers its SYN is stranded (`TcpTunnel.LateAnswerStrands`), and a closing one is reopened
  under the condition of `TcpTunnel.ClosingReopensIff`.
- Data on a SYN is queued at the number of the SYN and handed on exactly if a reset loosens it in LISTEN and a
  writable socket then takes it before the timer closes it (`TcpSynData.SynDataHandedOnIff`, example
  `TcpSynData.SynDataAfterReset`).
- A peer that announces an MSS of 0 gets no data: recv() is asked for no bytes, and the session is closed as at the
  end of the data (`TcpReads.NothingTakenIff`).
- A name with labels before a compression pointer is read right, but the offset returned is not behind it
  (`DnsNames.OffsetRightIff`). The decoder ends exactly if ptr and noff do not repeat (`DnsLoops.RunsForEverIff`).
- Chaining the checksum behind a piece of odd length works exactly if the next piece sums to a multiple of 257
  (`Checksums.OddChainingIff`); the program only chains behind even ones.
- A UDP checksum may be sent as 0 (`Packets.UdpChecksumAbsentIff`), and the MSS option is sent in host byte order
  (`Packets.MssReadSwapped`).

## Assumptions

- The signed subtractions of `compare_u32`, undefined in C on overflow, are taken exactly, and flow control is
  proved for them. One acknowledgement, which the exact comparison places both before local_seq and after acked,
  then moves acked back (`TcpSafety.OldAckMovesForwardIff`, `TcpSafety.AntipodalAckMovesBack`). On a machine whose
  subtraction wraps that one is reset instead (`TcpSafety.AntipodalAckReset`); the comparison agrees as
  `Serial.WrappedAgreesIffFits` says, and windows and older acknowledgements are handled as proved exactly while the
  unacknowledged bytes do not cross from the lower half of the sequence numbers into the upper
  (`TcpSafety.FallbackOnMachineIff`, `TcpSafety.OldAckOnMachineIff`, `TcpSafety.OldAckOnMachineMovesForwardIff`).
- A window scale is at most 14 (section 2.3 of RFC 7323).
- Queue order, the fate of data on a SYN, and delivery, and only these, assume that a queued segment starts less
  than 2^31-65539 bytes from the next byte expected (`TcpOrder.Nearby`, `TcpDelivery.ArrivesAt`); delivery
  assumes in addition that the segments are slices of one stream.
- Whether a host name for the CONNECT request is found is an input. As the source is compiled, with DNS_LOOKUPS
  undefined, the address itself is taken for a name (tcp.c:497-500), so one is always found.
- The machine is little-endian, as Android is.
- One pass over the session list reads the clock once.

## Model

| member | source | states |
|---|---|---|
| Serial.CompareByDistance | android/app/src/main/cpp/tun2http/util.c:26-38 | The comparison is a function of the distance on the circle of serial numbers (RFC 1982, section 3.2) and says exactly what happens at the two middle distances, where the sign decides |
| Serial.WrappedAgreesIffFits | android/app/src/main/cpp/tun2http/util.c:31-37 | The subtraction as a 32-bit machine wraps it gives the exact answer if and only if the signed difference fits in an int |
| Serial.AntisymmetricIff | android/app/src/main/cpp/tun2http/util.c:26-38 | Swapping the arguments negates the result if and only if the signed numbers are not exactly INT_MAX apart |
| Serial.StrictTotalOrder | android/app/src/main/cpp/tun2http/util.c:26-38 | Strict total order on any serial numbers within 2^31-2 of one base |
| Serial.CompareOffsets | android/app/src/main/cpp/tun2http/util.c:26-38 | Positions of one byte stream less than 2^31-1 apart compare as the integers do, across any wrap |
| Reassembly.InsertPlaced | android/app/src/main/cpp/tun2http/tcp.c:917-966 | Queuing any segment that is not behind remote_seq (new, duplicate, overlapping, longer at the same number) keeps the queue strictly increasing, only the head partly sent, and that head ending at remote_seq |
| Reassembly.InsertSlices | android/app/src/main/cpp/tun2http/tcp.c:917-966 | If the segment and the queue are slices of one stream the queue stays slices of it, including when a segment is replaced by longer data |
| Reassembly.PlacedSerial | android/app/src/main/cpp/tun2http/tcp.c:917-929 | The queue invariant implies strict order in terms of compare_u32 itself |
| Reassembly.ForwardPlaced | android/app/src/main/cpp/tun2http/tcp.c:299-358 | One forwarding pass, whatever send() answers, keeps the queue invariant at the new position |
| Reassembly.PassContiguous | android/app/src/main/cpp/tun2http/tcp.c:300-345 | Every byte handed on in a pass continues where the one before it ended: no gap and no repeat |
| Reassembly.ForwardSlices | android/app/src/main/cpp/tun2http/tcp.c:299-358 | A pass over slices of a stream hands on exactly the next bytes of that stream |
| Reassembly.ForwardCounts | android/app/src/main/cpp/tun2http/tcp.c:339-344 | remote_seq advances by exactly the bytes handed on, modulo 2^32 |
| Reassembly.ForwardBeforeSyn | android/app/src/main/cpp/tun2http/tcp.c:300-303 | Before the SYN is counted nothing in the queue matches remote_seq, so nothing is forwarded |
| Reassembly.WireIffNoLoss | android/app/src/main/cpp/tun2http/tcp.c:320-338 | The socket takes every byte the pass counts if and only if no send() of the pass fails with data in hand |
| Segmentation.Cut.Arrival | android/app/src/main/cpp/tun2http/tcp.c:917-966 | For segments cut at fixed places one arrival adds its piece to the sorted set; duplicates and forwarded pieces change nothing |
| Segmentation.Cut.AnyOrder | android/app/src/main/cpp/tun2http/tcp.c:917-966 | Any order of arrival with any duplicates, of pieces that compare_u32 can tell apart, gives the same queue: the sorted set of the arrived pieces not yet forwarded |
| Segmentation.Cut.FullPass | android/app/src/main/cpp/tun2http/tcp.c:299-358 | With enough socket space and no short or failed send one pass delivers exactly the text up to the first missing piece and leaves the later pieces queued |
| Segmentation.Cut.AnyPass | android/app/src/main/cpp/tun2http/tcp.c:299-358 | Any pass, with short or failed sends or little room, hands on the next bytes of the text and leaves the same pieces queued from there on |
| Segmentation.Interleaved | android/app/src/main/cpp/tun2http/tcp.c:299-358 | However arrivals and passes alternate, the bytes handed on are a prefix of the text and the queue is the sorted set of the arrived pieces from there on |
| Segmentation.OrderDoesNotMatter | android/app/src/main/cpp/tun2http/tcp.c:917-966 | Two such interleavings with the same arrived pieces and the same number of bytes handed on end in the same queue |
| Windows.ToforwardIsSum | android/app/src/main/cpp/tun2http/tcp.c:174-181 | The walk over the list is the sum of the unsent bytes modulo 2^32 |
| Windows.WindowIsHonest | android/app/src/main/cpp/tun2http/tcp.c:174-194 | The header field loses no bits, is 0 exactly when the window is, and what the peer decodes plus the queued bytes, as the 32 bits of the source count them, never exceeds the free socket buffer; below 2^32 queued bytes that is the true count |
| Windows.WindowIsGenerous | android/app/src/main/cpp/tun2http/tcp.c:183-193 | And it leaves out less than one unit of the scale of what is free and the field can say |
| Windows.ReceiveWindow | android/app/src/main/cpp/tun2http/tcp.c:183-193 | The window never exceeds what the scaled 16-bit field can say |
| Windows.SendWindowExact | android/app/src/main/cpp/tun2http/tcp.c:145-150 | While fewer than 2^31-1 bytes are unacknowledged the fallback of get_send_window is not taken and the window is what is left of the advertised one |
| TcpWindows.StepWindow | android/app/src/main/cpp/tun2http/tcp.c:782-783 | The send window is that of the packet looked at, the header field times two to the scale of the SYN, and no other step touches it |
| TcpWindows.AdvertisedFromSyn | android/app/src/main/cpp/tun2http/tcp.c:628-783 | From the SYN on, for every port, the send window is the one the peer advertised last |
| TcpWindows.WithinAdvertised | android/app/src/main/cpp/tun2http/tcp.c:391-443 | Flow control: a socket is read for exactly what it has, fits the mss and is left of the window advertised last, and after data was written the peer has no more than that window to acknowledge |
| TcpWindows.AckTaken | android/app/src/main/cpp/tun2http/tcp.c:836-893 | acked moves to what the peer acknowledges exactly if that is everything, or a part that is not taken for a keep-alive, and else stays |
| TcpWindows.StepAnnounces | android/app/src/main/cpp/tun2http/tcp.c:1174-1174 | Every packet announces the receive window computed last, and only serving a connected socket computes it anew |
| TcpWindows.AnnouncedIsHonest | android/app/src/main/cpp/tun2http/tcp.c:372-388 | When a connected session is served the window the peer decodes, together with what stays queued, fits the free socket buffer and leaves out less than one unit of the scale, and is 0 exactly if the window is |
| TcpWindows.SynAckIsHonest | android/app/src/main/cpp/tun2http/tcp.c:679-679 | So does the window in the answer to the SYN, data on the SYN included |
| TcpWindows.ReopeningIsTold | android/app/src/main/cpp/tun2http/tcp.c:373-388 | A receive window that opens again is announced at once |
| TcpSafety.StepSound | android/app/src/main/cpp/tun2http/tcp.c:91-143 | Every step (packet, socket event, poll set-up, timer, termination) keeps the coupling of socket, state and queue and the tunnel gating |
| TcpSafety.ReachableSound | android/app/src/main/cpp/tun2http/tcp.c:588-693 | From the SYN on, in every reachable state: FIN_WAIT1, LAST_ACK and CLOSE have no socket; no socket means one of these or CLOSING; FIN_WAIT1 and LAST_ACK have an empty queue; HTTPS data states have their tunnel |
| TcpSafety.StepAdvances | android/app/src/main/cpp/tun2http/tcp.c:732-745 | The pair (connect_sent, state) never falls in lexicographic order and rises on every change; CLOSE is absorbing |
| TcpSafety.BoundedChanges | android/app/src/main/cpp/tun2http/tcp.c:770-858 | A session changes state at most twenty times over any run |
| TcpSafety.OldAckMovesForwardIff | android/app/src/main/cpp/tun2http/tcp.c:863-893 | With exact subtraction an older acknowledgement moves acked forward, never past local_seq, if and only if it is not the single antipodal one |
| TcpSafety.AntipodalAckMovesBack | android/app/src/main/cpp/tun2http/tcp.c:863-893 | That one, the failing input, moves acked back by half the circle |
| TcpSafety.ReadWithinWindow | android/app/src/main/cpp/tun2http/tcp.c:391-443 | Right after a data write the unacknowledged bytes are within send_window, which TcpWindows.AdvertisedFromSyn shows to be what was last advertised, and with exact subtraction the fallback of get_send_window was not used |
| TcpSafety.StepPaced | android/app/src/main/cpp/tun2http/tcp.c:836-893 | With exact subtraction, in ESTABLISHED and CLOSE_WAIT every step moves acked forward only and never past local_seq, unless its packet is the antipodal acknowledgement |
| TcpSafety.RunPaced | android/app/src/main/cpp/tun2http/tcp.c:836-893 | Over whole runs without that one acknowledgement the unacknowledged bytes stay within the largest window |
| TcpSafety.PacedFromSyn | android/app/src/main/cpp/tun2http/tcp.c:588-693 | The same from the SYN on, for every port |
| TcpSafety.FallbackOnMachineIff | android/app/src/main/cpp/tun2http/tcp.c:145-150 | On a machine whose subtraction wraps the fallback of get_send_window is taken if and only if the unacknowledged bytes cross from the lower half of the sequence numbers into the upper |
| TcpSafety.OldAckOnMachineIff | android/app/src/main/cpp/tun2http/tcp.c:863-893 | There an acknowledgement of a part of the unacknowledged bytes is handled as with exact subtraction if and only if they do not cross; if they do it is reset or ignored |
| TcpSafety.OldAckOnMachineMovesForwardIff | android/app/src/main/cpp/tun2http/tcp.c:863-893 | There acked moves back if and only if the acknowledgement lies exactly INT_MAX before acked and unacknowledged bytes do not cross |
| TcpSafety.AntipodalAckReset | android/app/src/main/cpp/tun2http/tcp.c:889-893 | There the antipodal acknowledgement of exact subtraction is answered with a reset |
| TcpBooks.ClosedFormIff | android/app/src/main/cpp/tun2http/tcp.c:286-293 | In an open state the books amount to the closed forms remote_seq = remote_start + 1 + sent + (FIN counted) and local_seq = local_start + 1 + received + (FIN sent), modulo 2^32, if and only if our SYN was counted |
| TcpBooks.PacketKept | android/app/src/main/cpp/tun2http/tcp.c:770-893 | A packet keeps the books: the FIN of the peer is counted once, on every path and whatever the segments contain |
| TcpBooks.SocketKept | android/app/src/main/cpp/tun2http/tcp.c:264-446 | A socket event keeps the books: both SYNs, the FIN confirmed when the queue drains, and our FIN are counted once |
| TcpBooks.PollKept | android/app/src/main/cpp/tun2http/tcp.c:91-143 | The keep-alive borrows one from remote_seq and gives it back |
| TcpBooks.DataKept | android/app/src/main/cpp/tun2http/tcp.c:436-442 | Data read from the socket is written with the sequence number of its place, and counted only if it was written |
| TcpBooks.RunKept | android/app/src/main/cpp/tun2http/tcp.c:770-893 | Every run keeps the books, without any assumption on its packets |
| TcpBooks.AccountsFromSyn | android/app/src/main/cpp/tun2http/tcp.c:588-693 | For every SYN (with data or not), every port but that of HTTPS and every run: closed forms in every open state, and every data packet written carries the number of its place in the data written so far |
| TcpReads.StepTakes | android/app/src/main/cpp/tun2http/tcp.c:391-443 | A socket event writes to the tun device exactly the bytes recv() answered and counts them, and no other step writes data |
| TcpReads.TakenInOnePacket | android/app/src/main/cpp/tun2http/tcp.c:436-442 | They are the data of one packet, the last of the event |
| TcpReads.NothingTakenIff | android/app/src/main/cpp/tun2http/tcp.c:398-420 | A socket with data gives some of it if and only if the peer did not announce an MSS of 0, with which recv() is asked for no bytes and its answer taken for the end of file |
| TcpReads.RunTakes | android/app/src/main/cpp/tun2http/tcp.c:391-443 | Over a run the data written is what was read, in order |
| TcpReads.ServedFromSyn | android/app/src/main/cpp/tun2http/tcp.c:588-693 | Delivery to the client from the SYN on, for every port: the data written is the data read, a prefix of the stream of the server if recv() answers with that; and on every other port, as on that of HTTPS if the SYN was answered first, each packet carries the slice of the stream its number says |
| TcpDelivery.QueueInStep | android/app/src/main/cpp/tun2http/tcp.c:912-967 | Queuing a segment near the next expected byte, already forwarded ones included, keeps the queue where the stream goes on |
| TcpDelivery.QueueEarly | android/app/src/main/cpp/tun2http/tcp.c:912-967 | The same before the SYN is counted, data at the number of the SYN itself included |
| TcpDelivery.PacketLined | android/app/src/main/cpp/tun2http/tcp.c:782-893 | A packet keeps the queue in step with the stream, unless it is a reset that meets data at the number of an uncounted SYN |
| TcpDelivery.SocketLined | android/app/src/main/cpp/tun2http/tcp.c:264-446 | A socket event keeps the queue in step with the stream |
| TcpRuns.RunLined | android/app/src/main/cpp/tun2http/tcp.c:299-358 | The queue stays in step over every run whose segments arrive near the next expected byte |
| TcpRuns.RunSliced | android/app/src/main/cpp/tun2http/tcp.c:299-358 | And queue and bytes handed on stay slices of the stream if all segments are |
| TcpRuns.RunWire | android/app/src/main/cpp/tun2http/tcp.c:320-338 | Over a run the socket got all bytes counted if and only if no send() failed with data in hand |
| TcpRuns.Delivery | android/app/src/main/cpp/tun2http/tcp.c:299-358 | Delivery safety: however segments are cut, reordered, repeated and overlapped, the bytes acknowledged are a prefix of the stream, and the bytes written to the socket are exactly these if and only if no send() failed |
| TcpRuns.DeliveryFromSyn | android/app/src/main/cpp/tun2http/tcp.c:588-693 | Delivery from the SYN on, for every port but that of HTTPS, with data on the SYN or not: in every state that is not closing, and in all states unless a reset in LISTEN meets data at the number of the SYN |
| TcpOrder.StepArranged | android/app/src/main/cpp/tun2http/tcp.c:770-967 | Every step of every session keeps the queue in order around remote_seq, both exits from LISTEN of an HTTPS session included, and keeps what holds of a partly sent head |
| TcpOrder.OrderFromSyn | android/app/src/main/cpp/tun2http/tcp.c:917-966 | For every port, every SYN, with data or not, and every run whose segments arrive near remote_seq: the queue is strictly increasing in serial order and only its head may be partly sent |
| TcpOrder.PartlySentStays | android/app/src/main/cpp/tun2http/tcp.c:944-965 | A packet never replaces or lengthens a partly sent segment |
| TcpOrder.ForwardOrdered | android/app/src/main/cpp/tun2http/tcp.c:299-358 | A forwarding pass keeps the order, and a head that it leaves partly sent ends at the new remote_seq |
| TcpOrder.CountsSynIff | android/app/src/main/cpp/tun2http/tcp.c:265-293 | In LISTEN remote_seq moves exactly behind the five guards that count the SYN, and LISTEN is left with it |
| TcpOrder.AlignedFromSynIff | android/app/src/main/cpp/tun2http/tcp.c:299-358 | From the SYN on a partly sent head ends at remote_seq: on every other port always, on that of HTTPS if and only if the SYN is never counted while the head is partly sent |
| TcpOrder.OvertakenBySecondSyn | android/app/src/main/cpp/tun2http/tcp.c:1077-1087 | The failing input: a failed CONNECT request, a short send, a second request, and a reset that counts the SYN again |
| TcpSynData.SynDataHandedOnIff | android/app/src/main/cpp/tun2http/tcp.c:658-669 | Data on a SYN is handed on if and only if a reset meets the session in LISTEN, before any other event takes it out of there, and then, before a timer event closes the socket, a writable one has more room than the data queued at that number, retransmissions that lengthen it included |
| TcpSynData.SynDataAfterReset | android/app/src/main/cpp/tun2http/tcp.c:802-808 | A run that does: the socket gets the data of the SYN |
| TcpRuns.FailedSendIsAcknowledged | android/app/src/main/cpp/tun2http/tcp.c:320-344 | A send() that fails (-1 compared with an unsigned size counts as larger) removes the segment as acknowledged although the socket took nothing |
| TcpTunnel.StepWaits | android/app/src/main/cpp/tun2http/tcp.c:718-758 | Every step of an HTTPS session that waits for its tunnel keeps track of which SYNs are counted, opens the tunnel on these books, or strands the session |
| TcpTunnel.StrandedForEver | android/app/src/main/cpp/tun2http/tcp.c:265-293 | A stranded session never gets its tunnel |
| TcpTunnel.TunnelAccountsIff | android/app/src/main/cpp/tun2http/tcp.c:588-758 | From the SYN on: a tunnelled session in an open state has the closed forms if and only if the relay answered the SYN before a host name let it ask for the tunnel |
| TcpTunnel.TunnelSliced | android/app/src/main/cpp/tun2http/tcp.c:718-758 | If the SYN is counted before the tunnel is asked for, what waits for the tunnel, is handed to the proxy before it and goes through it are the next bytes of the stream |
| TcpProxied.NothingThroughTunnel | android/app/src/main/cpp/tun2http/tcp.c:718-758 | A session that asks for its tunnel before it counts the SYN relays nothing through it, whatever arrives, unless data comes with the number of the SYN |
| TcpProxied.TunnelDelivery | android/app/src/main/cpp/tun2http/tcp.c:299-358 | From the SYN on, whichever comes first: the bytes a session with a tunnel has handed on are a prefix of the stream, unless the tunnel was asked for first and data comes with the number of the SYN; the socket got exactly these if and only if no send() failed |
| TcpTunnel.TunnelSkipsSyn | android/app/src/main/cpp/tun2http/tcp.c:718-758 | On the other side: a repeated SYN opens a tunnel without the SYN ever being counted or answered |
| TcpTunnel.LateAnswerStrands | android/app/src/main/cpp/tun2http/tcp.c:286-293 | A connect that finishes after the tunnel was asked for answers the SYN and strands the session |
| TcpTunnel.ClosingReopensIff | android/app/src/main/cpp/tun2http/tcp.c:732-745 | A closing session goes back to LISTEN if and only if it is HTTPS with a socket, without a request for a tunnel, and a packet that is not urgent finds a host name and a socket that takes the request |
| TcpAcks.SocketAnswers | android/app/src/main/cpp/tun2http/tcp.c:380-443 | Everything written while a socket event is handled acknowledges the same number: what the forwarding pass has reached |
| TcpAcks.KeepAliveAnswers | android/app/src/main/cpp/tun2http/tcp.c:106-116 | A keep-alive acknowledges exactly one less than remote_seq, which stays what it was |
| TcpAcks.StepHonestIff | android/app/src/main/cpp/tun2http/tcp.c:1166-1177 | The packets a step writes acknowledge only bytes handed on, and a FIN that came with the next number, if and only if the step does not count a SYN a second time or a FIN where none stands |
| TcpAcks.FinIff | android/app/src/main/cpp/tun2http/tcp.c:814-834 | Outside LISTEN a packet moves remote_seq exactly behind the guards of the FIN |
| TcpAcks.RunHonestIff | android/app/src/main/cpp/tun2http/tcp.c:1166-1177 | The same over every run |
| TcpAcks.HonestFromSynIff | android/app/src/main/cpp/tun2http/tcp.c:588-693 | From every SYN on, for every port and every event: no packet acknowledges a byte not handed on if and only if the run never counts a SYN twice, nor a FIN although none came with the number of the next byte |
| TcpAcks.RunTruthful | android/app/src/main/cpp/tun2http/tcp.c:1166-1177 | After such a run every packet written acknowledges at most the bytes handed on by then, or a FIN behind some of them |
| TcpAcks.TruthfulWithoutFin | android/app/src/main/cpp/tun2http/tcp.c:588-693 | On every port but that of HTTPS, in every run without a FIN: no packet acknowledges more than the bytes handed on |
| TcpAcks.FinBehindGap | android/app/src/main/cpp/tun2http/tcp.c:814-821 | A failing input: the data before a FIN is lost, and the answer to the FIN acknowledges its first byte |
| TcpAcks.SecondSynAcknowledged | android/app/src/main/cpp/tun2http/tcp.c:732-745 | Another: an HTTPS session that answered its SYN asks for its tunnel, and then an error or a repeated connect acknowledges the first byte |
| TcpFlags.StepSpoke | android/app/src/main/cpp/tun2http/tcp.c:1044-1087 | What each step writes, packet by packet and in order: the guards behind which a SYN, a FIN, a reset, data or a bare acknowledgement is written; no packet has two of these flags, and all but a reset acknowledge |
| TcpFlags.OrderlyFromSyn | android/app/src/main/cpp/tun2http/tcp.c:588-693 | On every port but that of HTTPS, over every run: the SYN is answered once at most, data comes only behind that, and behind our FIN neither data nor a second FIN; between the two the state says which were written |
| TcpLives.HandshakeCompletes | android/app/src/main/cpp/tun2http/tcp.c:286-840 | A finished connect is answered with the SYN, and the acknowledgement of that establishes the session |
| TcpLives.TunnelCompletes | android/app/src/main/cpp/tun2http/tcp.c:718-758 | An HTTPS session answers its SYN, asks for its tunnel, queues the packet it asked on, and is established behind the reply of the proxy |
| TcpLives.ClientClosesFirst | android/app/src/main/cpp/tun2http/tcp.c:814-846 | FIN, end of file and acknowledgement lead through CLOSE_WAIT and LAST_ACK to CLOSING, each FIN counted |
| TcpLives.ServerClosesFirst | android/app/src/main/cpp/tun2http/tcp.c:404-433 | End of file and FIN lead through FIN_WAIT1 to CLOSE |
| TcpLives.FinWaitsForData | android/app/src/main/cpp/tun2http/tcp.c:380-386 | A FIN behind queued data is counted once the socket has taken that data |
| TcpPolling.OutputIff | android/app/src/main/cpp/tun2http/tcp.c:121-131 | With data to transfer a session asks for a writable event if and only if that would hand on a segment |
| TcpPolling.InputIff | android/app/src/main/cpp/tun2http/tcp.c:105-119 | And for a readable event if and only if that would read something |
| TcpPolling.AgainIff | android/app/src/main/cpp/tun2http/tcp.c:91-131 | It asks for another look if and only if it does not ask for a readable event, or not for a writable one although data is queued |
| TcpPolling.ReadyIsHandedOn | android/app/src/main/cpp/tun2http/tcp.c:121-358 | A segment that is next and fits the socket buffer is handed on, as far as send() takes it, by the next writable event, which was asked for |
| TcpPolling.PassWithinRoom | android/app/src/main/cpp/tun2http/tcp.c:298-340 | A pass never hands on as much as the socket buffer has room for |
| TcpPolling.RefusedIsClosed | android/app/src/main/cpp/tun2http/tcp.c:132-141 | The set-up asks for what it needs, and closes the session if and only if epoll refuses a change or a keep-alive cannot be written |
| TcpPolling.ListenIff | android/app/src/main/cpp/tun2http/tcp.c:95-104 | A session in LISTEN asks for input if and only if the reply of the proxy would open its tunnel, and else for output |
| TcpPolling.QuietIff | android/app/src/main/cpp/tun2http/tcp.c:91-143 | In all other states it asks for nothing, and nothing would be read |
| TcpPolling.ProbeIff | android/app/src/main/cpp/tun2http/tcp.c:108-118 | A keep-alive is written if and only if the send window is shut and the last one is more than 100 milliseconds ago |
| TcpPolling.ProbesApart | android/app/src/main/cpp/tun2http/tcp.c:111-113 | Over runs two keep-alives are more than 100 milliseconds apart, whatever the clock does |
| TcpLifetime.TimeoutBounded | android/app/src/main/cpp/tun2http/tcp.c:17-30 | For any load, and with the truncating divisions, a timeout is at most 3600 seconds |
| TcpLifetime.BoundedLifetime | android/app/src/main/cpp/tun2http/tcp.c:51-88 | A session left alone is closed, socket included, by the first check more than 3600 s after its last activity and freed by the first check more than 300 s later, from any state |
| TcpLifetime.LingeredIsClosed | android/app/src/main/cpp/tun2http/tcp.c:84-88 | A session the timer lets go of has no socket |
| SessionLifetime.ExpiresIff | android/app/src/main/cpp/tun2http/tcp.c:17-60 | For all three protocols, up to full load: a live session expires if and only if it was idle for more than its seconds less the load in percent; over full load at once |
| SessionLifetime.StepTime | android/app/src/main/cpp/tun2http/tcp.c:782-782 | A step takes the time if and only if it was activity: the list of events that count |
| SessionLifetime.TimerEndsIff | android/app/src/main/cpp/tun2http/tcp.c:51-88 | From the SYN on: the timer closes an active session if and only if its last activity is too long ago, and else leaves it as it is |
| SessionLifetime.LivesOn | android/app/src/main/cpp/tun2http/tcp.c:51-88 | A session left alone lives on with its socket until then |
| SessionLifetime.UdpLifetime | android/app/src/main/cpp/tun2http/udp.c:16-56 | An active UDP session is closed by the first check after it expired and left alone before |
| SessionLifetime.UdpLingers | android/app/src/main/cpp/tun2http/udp.c:57-61 | A closed or blocked one is freed after more than 60 seconds |
| SessionLifetime.IcmpLifetime | android/app/src/main/cpp/tun2http/icmp.c:16-41 | An ICMP session is freed, its socket closed, by the first check after it expired or was told to stop |
| SessionLifetime.NoneOutlivesItsEnd | android/app/src/main/cpp/tun2http/session.c:286-356 | Once all sessions were told to end, one pass of checks leaves none alive and no descriptor open |
| TcpSessions.TcpSession.constructor | android/app/src/main/cpp/tun2http/tcp.c:619-693 | The session registered for a SYN is the initial state of the runs |
| TcpSessions.TcpSession.FindPlace | android/app/src/main/cpp/tun2http/tcp.c:921-926 | The walk stops at the first segment not below the new one, with the node before it |
| TcpSessions.TcpSession.Splice | android/app/src/main/cpp/tun2http/tcp.c:928-943 | Linking in place puts exactly one node between its neighbours and keeps the list acyclic |
| TcpSessions.TcpSession.Lengthen | android/app/src/main/cpp/tun2http/tcp.c:944-965 | The node at the same number takes the longer data, otherwise nothing changes |
| TcpSessions.TcpSession.QueueTcp | android/app/src/main/cpp/tun2http/tcp.c:912-967 | The pointer code on the linked list refines insertion into the sorted queue |
| TcpSessions.TcpSession.GetReceiveWindow | android/app/src/main/cpp/tun2http/tcp.c:174-194 | The loop and the clipping compute the window proved honest |
| TcpSessions.TcpSession.ForwardLoop | android/app/src/main/cpp/tun2http/tcp.c:299-358 | The loop over the linked list terminates and refines the forwarding pass: queue, remote_seq, bytes counted, bytes taken |
| TcpSessions.TcpSession.Connected | android/app/src/main/cpp/tun2http/tcp.c:265-293 | Refines the answer to a finished connect or a tunnel reply |
| TcpSessions.TcpSession.ReadSocket | android/app/src/main/cpp/tun2http/tcp.c:391-445 | Refines reading from the socket: error, end of file, data |
| TcpSessions.TcpSession.CheckSocket | android/app/src/main/cpp/tun2http/tcp.c:196-453 | The whole event handler refines its function on states |
| TcpSessions.TcpSession.Monitor | android/app/src/main/cpp/tun2http/tcp.c:91-143 | Refines the poll set-up and its recheck answer |
| TcpSessions.TcpSession.CheckTimer | android/app/src/main/cpp/tun2http/tcp.c:51-88 | Refines the timer, and its answer is that the session lingered 300 s in CLOSE |
| TcpSessions.TcpSession.WriteRst | android/app/src/main/cpp/tun2http/tcp.c:1077-1087 | Refines the reset, which counts a SYN only in LISTEN and never leaves CLOSE |
| TcpSessions.TcpSession.RequestTunnel | android/app/src/main/cpp/tun2http/tcp.c:718-746 | Refines the CONNECT request |
| TcpSessions.TcpSession.HandleFin | android/app/src/main/cpp/tun2http/tcp.c:814-834 | Refines the handling of a FIN |
| TcpSessions.TcpSession.HandleTcp | android/app/src/main/cpp/tun2http/tcp.c:716-909 | The whole packet handler of a found session refines its function on states |
| TcpSessions.HandleEvents | android/app/src/main/cpp/tun2http/session.c:122-246 | Any sequence of events on the object leaves it in the state of the run, so every theorem about runs holds of it |
| Sessions.FreedIsClosed | android/app/src/main/cpp/tun2http/session.c:122-168 | Every TCP, UDP or ICMP session the removal pass or check_allowed frees has its descriptor closed |
| Sessions.ChosenPartition | android/app/src/main/cpp/tun2http/session.c:153-167 | Kept and freed nodes are together all nodes, each exactly once |
| Sessions.StayingHasTime | android/app/src/main/cpp/tun2http/session.c:125-151 | With one clock reading a live session that stays has at least one second left |
| Sessions.TimeoutIsMinimum | android/app/src/main/cpp/tun2http/session.c:93-151 | The timeout computed over a list is the first second at which the expiry test of some session becomes true, or 3600 |
| Sessions.PollDeadline | android/app/src/main/cpp/tun2http/session.c:93-151 | After the removal pass the poll waits exactly until the first surviving session expires, an hour at most |
| Sessions.LiveIff | android/app/src/main/cpp/tun2http/session.c:286-356 | A session counts as live if and only if check_allowed has something to tell it |
| Sessions.LiveCountIsNumber | android/app/src/main/cpp/tun2http/session.c:95-114 | The count made over the list is the number of live sessions |
| Sessions.AnyAskAgainIff | android/app/src/main/cpp/tun2http/session.c:110-111 | The recheck answer accumulated over the list says whether any session with a socket asked for another look |
| Sessions.StepUnique | android/app/src/main/cpp/tun2http/session.c:95-168 | Every step on the list keeps sessions distinct by version, addresses and ports |
| Sessions.StepTidy | android/app/src/main/cpp/tun2http/udp.c:40-61 | Every step keeps closed and blocked sessions without a descriptor |
| Sessions.UniqueOverRuns | android/app/src/main/cpp/tun2http/tcp.c:530-540 | Over every run no two TCP and no two UDP sessions share version, addresses and ports, and no two ICMP sessions that are not stopped share version and addresses |
| Sessions.MatchesIff | android/app/src/main/cpp/tun2http/tcp.c:530-540 | The search finds exactly the sessions of the same protocol, IP version and addresses, for TCP and UDP both ports, for ICMP until stopped |
| Sessions.OneAtMost | android/app/src/main/cpp/tun2http/udp.c:283-293 | Among distinct sessions one at most is that of a packet |
| Sessions.ArriveAddsIff | android/app/src/main/cpp/tun2http/icmp.c:160-214 | A session is added, in front, if and only if none is that of the packet |
| Sessions.ExactlyOneForPacket | android/app/src/main/cpp/tun2http/tcp.c:530-693 | After any run and the arrival of a packet exactly one session is that of the packet |
| SessionTables.SessionTable.Find | android/app/src/main/cpp/tun2http/udp.c:283-293 | The search returns the session with the protocol, addresses and ports of the packet, the first and among distinct sessions the only one, or null if and only if there is none |
| SessionTables.SessionTable.Arrive | android/app/src/main/cpp/tun2http/icmp.c:160-214 | Look up or push at the front: a new node if and only if no session is that of the packet, which the node returned is |
| SessionTables.SessionTable.Remove | android/app/src/main/cpp/tun2http/session.c:153-163 | Unlinking with the trailing pointer removes exactly one node and keeps the rest in order |
| SessionTables.SessionTable.CheckNode | android/app/src/main/cpp/tun2http/session.c:126-167 | One turn of the removal pass: check, timeout, keep or free |
| SessionTables.SessionTable.CheckAll | android/app/src/main/cpp/tun2http/session.c:117-168 | The pass leaves exactly the checked list filtered by the keep condition, in order, frees each dropped node once, and returns the poll timeout |
| SessionTables.SessionTable.CountAndPoll | android/app/src/main/cpp/tun2http/session.c:95-115 | The pass before it polls every TCP session with a socket, counts the live ones and accumulates the recheck answers |
| SessionTables.SessionTable.CheckAllowed | android/app/src/main/cpp/tun2http/session.c:286-356 | check_allowed leaves exactly the terminated list without the blocked UDP sessions, in order, and frees each of these once |
| SessionTables.SessionTable.Clear | android/app/src/main/cpp/tun2http/session.c:15-28 | clear frees every node once and closes every open descriptor once |
| Checksums.CalcChecksum | android/app/src/main/cpp/tun2http/util.c:7-24 | The two loops compute the word sum folded to 16 bits, and without 32-bit overflow the end-around-carry sum of RFC 1071 |
| Checksums.ChecksumCongruent | android/app/src/main/cpp/tun2http/util.c:7-24 | The result is congruent to the word sum modulo 65535 and 0 only if that sum is 0 |
| Checksums.NoOverflow | android/app/src/main/cpp/tun2http/util.c:8-16 | Up to 131068 bytes the 32-bit accumulator cannot lose a carry |
| Checksums.Chaining | android/app/src/main/cpp/tun2http/util.c:7-24 | Chaining over pieces of even length is one pass over their concatenation |
| Checksums.OddChainingIff | android/app/src/main/cpp/tun2http/util.c:15-16 | Chaining behind a piece of odd length works if and only if the word sum of the next piece is a multiple of 257 |
| Checksums.ByteOrder | android/app/src/main/cpp/tun2http/util.c:9-13 | The sum over host-order words is the byte-swapped sum over network-order words (RFC 1071, section 2 (B)), so no htons is needed |
| Checksums.ComplementVerifies | android/app/src/main/cpp/tun2http/tcp.c:1121-1122 | A buffer with the complement of its sum stored in a zeroed field passes the check of the receiver |
| Checksums.DetectsChangedWord | android/app/src/main/cpp/tun2http/util.c:7-24 | A packet with one changed word passes if and only if the word went between the two representations of zero |
| Packets.WriteTcp | android/app/src/main/cpp/tun2http/tcp.c:1089-1196 | The buffer built in memory is, byte for byte, the packet the state machine records as written |
| Packets.WriteUdp | android/app/src/main/cpp/tun2http/udp.c:504-582 | The same for UDP |
| Packets.BuildIp4 | android/app/src/main/cpp/tun2http/tcp.c:1111-1122 | The IPv4 header is built with its checksum in place |
| Packets.BuildIp | android/app/src/main/cpp/tun2http/tcp.c:1124-1160 | IP header for both versions and the sum of the pseudo header |
| Packets.PseudoSum | android/app/src/main/cpp/tun2http/tcp.c:1151-1160 | The IPv6 pseudo header, with addresses exchanged and the length in the wrong half of its field, has the sum of the one RFC 8200 prescribes |
| Packets.HeaderRead | android/app/src/main/cpp/tun2http/tcp.c:1111-1149 | A receiver that reads the IP header by RFC 791 or RFC 8200 gets the version, lengths, no fragment, a time to live of 64, the protocol, and as source the host the session talks to, as destination its own |
| Packets.TcpAccepted | android/app/src/main/cpp/tun2http/tcp.c:1121-1196 | Every TCP packet passes the checks of its receiver, made on nothing but the packet: IPv4 header, and the segment behind the standard pseudo header of the addresses read in it, whatever its payload |
| Packets.UdpAccepted | android/app/src/main/cpp/tun2http/udp.c:532-582 | Every UDP packet does |
| Packets.UdpRoundTrip | android/app/src/main/cpp/tun2http/udp.c:522-582 | A receiver gets back addresses, ports and data of a datagram, and its length if it fits in 16 bits |
| Packets.LengthFieldIff | android/app/src/main/cpp/tun2http/tcp.c:1115-1115 | The length field of the IP header is the true length if and only if that fits in 16 bits |
| Packets.TcpRoundTrip | android/app/src/main/cpp/tun2http/tcp.c:1111-1190 | A receiver that reads header and segment gets back the addresses and exactly the sequence numbers, flags, window, ports and data meant |
| Packets.OptionsRead | android/app/src/main/cpp/tun2http/tcp.c:1176-1190 | Behind a SYN it reads the window scale, and the MSS with its two bytes exchanged; behind no other packet any option |
| Packets.UdpChecksumAbsentIff | android/app/src/main/cpp/tun2http/udp.c:579-582 | The checksum is sent as 0, which means none (RFC 768), if and only if the sum is a positive multiple of 65535 |
| Packets.UdpChecksumCanBeAbsent | android/app/src/main/cpp/tun2http/udp.c:579-582 | Such a datagram exists |
| Packets.MssReadSwapped | android/app/src/main/cpp/tun2http/tcp.c:1181-1183 | The peer reads the MSS option with its two bytes exchanged |
| Tls.ParseServerNameExtension | android/app/src/main/cpp/tun2http/tls.c:32-53 | Terminates, stays in bounds, and leaves the first host_name, cut at 255 bytes, in the buffer, or the buffer untouched |
| Tls.ParseExtensions | android/app/src/main/cpp/tun2http/tls.c:55-80 | Terminates, stays in bounds and acts on the first server_name extension only |
| Tls.ParseTlsHeader | android/app/src/main/cpp/tun2http/tls.c:87-128 | Only a complete ClientHello record is looked into, for either signedness of char |
| Tls.ParseFields | android/app/src/main/cpp/tun2http/tls.c:130-182 | Skips session id, ciphers and compression methods and hands on exactly the extension block |
| ClientHellos.NamesFound | android/app/src/main/cpp/tun2http/tls.c:37-52 | In an encoded server name list the first host_name is found behind any other entries |
| ClientHellos.ExtensionsFound | android/app/src/main/cpp/tun2http/tls.c:60-79 | In an encoded extension list the first server_name is found behind any other extensions |
| ClientHellos.HelloFound | android/app/src/main/cpp/tun2http/tls.c:130-182 | The same in any ClientHello, with any session id, ciphers and compression methods, with or without extensions |
| ClientHellos.RecordFound | android/app/src/main/cpp/tun2http/tls.c:87-183 | Parsing inverts encoding: for every well-formed ClientHello record and whatever follows it the parser finds the server name, or nothing if there is none |
| ClientHellos.NameExtracted | android/app/src/main/cpp/tun2http/tls.c:45-49 | A name of 1 to 255 bytes without NUL is the C string the caller reads |
| ClientHellos.NothingExtracted | android/app/src/main/cpp/tun2http/tls.c:55-80 | Without a server name the buffer is untouched |
| Dns.GetQname | android/app/src/main/cpp/tun2http/dns.c:4-43 | The loop leaves in the buffer, and returns, what following the name turn by turn gives; it is given up after as many turns as ptr and noff have values |
| DnsLoops.EndsIff | android/app/src/main/cpp/tun2http/dns.c:11-31 | That many turns decide: if the loop has not ended by then it never ends |
| DnsLoops.RunsForEverIff | android/app/src/main/cpp/tun2http/dns.c:11-31 | The loop runs for ever if and only if ptr and noff come back to values they had before |
| DnsLoops.SelfPointerLoops | android/app/src/main/cpp/tun2http/dns.c:12-20 | As with a pointer to itself |
| DnsLoops.FullCycleLoops | android/app/src/main/cpp/tun2http/dns.c:21-28 | Or with labels that fill the buffer, 256 bytes with their dots, and a pointer back to them: noff wraps to 0 |
| Dns.MoreSteps | android/app/src/main/cpp/tun2http/dns.c:11-31 | The bound on the turns does not change a result that is reached |
| DnsNames.NameRead | android/app/src/main/cpp/tun2http/dns.c:4-43 | A name of at most 255 bytes written out is read as its labels joined by dots, and the offset behind its root is returned (RFC 1035, section 3.1) |
| DnsNames.CompressedRead | android/app/src/main/cpp/tun2http/dns.c:12-20 | Labels followed by a pointer to a name are read as the whole name (RFC 1035, section 4.1.4), and the start plus 2 is returned |
| DnsNames.OffsetRightIff | android/app/src/main/cpp/tun2http/dns.c:16-19 | That offset is the one behind the name if and only if the name is only a pointer |
| DnsNames.TextOfAnswer | android/app/src/main/cpp/tun2http/dns.c:39-42 | The C string in the buffer is the text of the name |

## Left out

- TcpRuns.DeliveryFromSyn: for port 80 the stream is the one before the rewriting of HTTP requests (http.c), which is not part of this model.
- TcpProxied.TunnelDelivery: of a session that asked for its tunnel first while data came with the number of the SYN, and of one that never gets its tunnel, no delivery is stated.
- Segmentation.Cut.FullPass: progress is claimed for non-overlapping segments only; partly overlapping ones can block the head of the queue for ever.
- Dns.GetQname: is given up where the C loop never ends; a read behind the message, undefined in C, ends with an outcome of its own.
- Packets.WriteTcp: takes the result of get_default_mss as a parameter; the write to the tun device and its answer are events of the state machine.
- SessionTables.SessionTable.CheckAll: the nodes hold a TCP session as the value that TcpSessions.TcpSession is proved to refine, not the object itself, so sharing between the two structures is not captured.
- Sessions.UniqueOverRuns: packets and socket events may do anything to a UDP or ICMP session but revive it; what else handle_udp and handle_icmp do is not modelled.
- The TCP options of an incoming SYN (tcp.c:589-614): maximum segment size and window scale are inputs.
- The reset sent for a packet of an unknown session (tcp.c:694-714), which touches no session.
- Opening sockets, host name lookup, the CONNECT text, and the bytes of the proxy's reply, which the code reads and drops.
- UDP payload handling, DHCP, the parsing of whole DNS messages, and the ICMP id rewriting; block_udp is never called.
- The MSG_MORE flag of send(), which the push bit of a segment decides, and the logging of states.
- The byte counters sent and received are unbounded instead of 64 bits wide.
- Threads, the mutex, JNI, signals, logging, and the errors of epoll and of the tun device that stop the loop.
- ip.c: IPv6 extension headers, the check of incoming packets, and the lookup of user ids.
- The DPI proxy (android/app/src/main/cpp/*.cpp), the preprocessing scripts, the apps and the Windows runner.
