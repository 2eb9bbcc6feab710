# A Dafny model of the Assimilation client library's protocol core

The Assimilation nanoprobe and CMA talk to each other over UDP. Their C client library implements a reliable
protocol of its own, a packet format with signatures, encryption and compression, network addresses in several
families, and JSON configuration objects. This project models that core and proves what it is relied on for.

- **Queues and connections.** `FsQueueSpec` and `FsProtocolSpec` give every operation as a function on values:
  the sorted input queue, the output queue, the window, retransmission, and the six-state automaton that calls
  itself while it sends a CONNSHUT. `FsQueues` and `FsProtocols` are the classes that update queues, connections
  and shared lists in place; each of their methods is proved equal to its function, including the mutually
  recursive ones. A connection is looked at through a `Focus`: its own fields and the lists it shares with others.
- **Invariants over every run.** `FsProtocolInvariants`, `FsProtocolShutdown`, `Connection` and `ReadyMarks` are
  about one connection and any sequence of events, `Trails` about what it puts on the wire. `Neighbours`, `Host`,
  `Audits` and `Fairness` are about all connections of a process. `Delivery` and `Backlog` are about two endpoints over
  a network that drops, duplicates and reorders: a packet may arrive at any time, any number of times, once its peer
  has sent it. `HostLinks` places those endpoints inside processes with other connections, and `ComeBack` follows one
  run in full. New connections meet all these invariants (`FsProtocolInvariants.FreshGood`, `Trails.FreshTrail`,
  `Delivery.IdleInv`, `Backlog.IdleBacklog`), so what is proved of every run holds of every reachable state.
- **What must happen.** `Arrivals` accounts for every frameset taken in, sequenced or not; `Retransmission` says when
  the oldest frameset goes out again and when a connection gives up, `Timers` that this reaches every connection of a
  process; `Transmission` says that the window is used, and `Acks` that ACKs are sent, repeated, and release what the
  sender holds.
- **Addresses and JSON.** `NetAddr` (equivalence, hashing, conversions, the connection table, prefix masks),
  `Numerals`, `AddrText`, `AddrRoundTrip` and `AddrLoops` (printer and parsers); `Json` and `JsonText` (the printer
  and parser of configuration objects at token level, and the quoting of strings).
- **Packets.** `Tlv`, `ValueFrames`, `Codec`, `Layouts` and `Packets`: the fill from the back of a buffer that
  compression replaces and encryption rewrites in place, the decoder that undoes it, and the bytes that it accepts.
  Checksum, cipher and compressor are function-valued parameters; `Codec.Inverse` says what is assumed of them.

Results that came out differently from what one would expect:

- The ready mark of an input queue can be wrong in three situations, not two. A frameset of an older session that
  is refused, and whose id happens to be the next one expected, marks even an empty queue as ready
  (`ReadyMarks.ArrivalSpoilsIff`, `ReadyMarks.OldSessionMarksEmptyQueue`). If such a connection is destroyed while
  its queue is empty, the list of readable connections keeps an entry for it (`Host.DestroyDangles`).
- A CONNNAK that arrives in SHUT1, SHUT2 or SHUT3 moves the connection to NONE without closing it and leaves the
  timer armed (`Connection.NakKeepsShutIff`).
- The frameset that the receiver waits for can be refused for lack of room, even with equal limits, sequenced traffic
  only and epochs that start at 1: `ComeBack.AwaitedCanBeRefused` follows a receiver that closes, is brought back to the
  session by old copies, and then waits for something that its peer has long had acknowledged. The exact
  condition can be read off the receiving queue before the arrival (`Backlog.AwaitedFitsIff`), and it holds as long as the
  sender still holds the frameset (`Backlog.AwaitedFindsRoom`).
- A frameset whose sequence number is cached already is refused by `send1`, but leaves an idle connection on the list of
  those that wait for ACKs (`FsProtocolShutdown.SequencedSendKeepsIff`).
- `is_valid_generic_tlv_packet` accepts any bytes whose first entry leads past their end (`Tlv.IsValidPacket`).
- A frameset just below the compression threshold is sent uncompressed first and compressed when it is built again,
  because its END frame then counts (`Codec.PreparedAgainIff`).
- A number in an IPv4 address is taken modulo 32 bits before it is checked, so 4294967297 stands for 1
  (`Numerals.AtoiWraps`, `AddrRoundTrip.ParseNumerals`).
- `JSONquotestring` makes a valid JSON string exactly when the text has no control characters besides the five that
  are escaped (`JsonText.QuoteRoundTripIff`).

## Model

| member | source | states |
|---|---|---|
| FrameSets.CompareIsOrder | clientlib/seqnoframe.c:136-153 | sequence numbers are compared in a total order up to the queue id: antisymmetric, transitive, and 0 exactly for equal session and request id |
| FsQueueSpec.EnqKeepsIff | clientlib/fsqueue.c:56-94 | enqueueing accepts exactly framesets without a cached sequence number while there is room, whatever their type; it keeps consecutive ids in one session exactly if what it accepts is of a type that is looked at for sequence numbers |
| FsQueueSpec.AckThroughOut | clientlib/fsqueue.c:223-261 | an ACK applies exactly if it is for this session and below the next id; it removes a prefix, through its id |
| FsQueueSpec.AckCountIs | clientlib/fsqueue.c:247-260 | the count that an ACK reports is the number of queued ids up to its own |
| FsQueueSpec.InsertKeepsOrder | clientlib/fsqueue.c:184-216 | sorted insertion keeps strictly ascending ids with unsequenced framesets in front |
| FsQueueSpec.InsertContents | clientlib/fsqueue.c:184-216 | sorted insertion adds the frameset exactly if its id is new, and neither loses nor repeats anything |
| FsQueueSpec.EnterSessionKeeps | clientlib/fsqueue.c:125-176 | adopting a first session or moving to a newer one, neither of them 0, leaves an ordered queue in that session, empty or as it was |
| FsQueueSpec.InqSortedKeeps | clientlib/fsqueue.c:116-216 | whatever arrives, sequenced with a nonzero session id or not sequenced, the input queue stays ascending, in its session, and not below the next expected id |
| Arrivals.UnsequencedContents | clientlib/fsqueue.c:178-193 | an unsequenced frameset is accepted exactly if there is room; it goes to the head, in front of everything that was queued |
| Arrivals.ArrivalContents | clientlib/fsqueue.c:116-216 | an arrival that is not of a later session adds itself exactly if there is room and its ids are neither past nor queued; nothing else changes in the contents |
| Arrivals.RaiseContents | clientlib/fsqueue.c:125-176 | a move to a later session keeps only the frameset that caused it, and that exactly if its id is at least 1 |
| Arrivals.NothingLost | clientlib/fsqueue.c:116-216 | over every run between resets of the input queue, what was queued at first and taken in, sequenced or not, is what was handed out and is still queued, each frameset as often |
| FsQueues.FsQueue.Enq | clientlib/fsqueue.c:56-94 | the in-place enqueue does what the function on queue values does |
| FsQueues.FsQueue.Deq | clientlib/fsqueue.c:105-110 | takes the head off, or leaves an empty queue alone |
| FsQueues.FsQueue.InqSorted | clientlib/fsqueue.c:116-216 | the in-place insertion, with its session checks and room test, does what the function on queue values does, on every way out |
| FsQueues.FsQueue.SortIn | clientlib/fsqueue.c:194-216 | the scan puts a sequenced frameset where the sorted insertion on values does, or leaves the queue alone if it is there already |
| FsQueues.FsQueue.AckThrough | clientlib/fsqueue.c:223-261 | the removal loop stops exactly where the prefix covered by the ACK ends |
| FsQueues.FsQueue.Flush | clientlib/fsqueue.c:267-294 | the loop empties the queue and touches nothing else |
| FsQueues.FsQueue.Flush1 | clientlib/fsqueue.c:298-306 | drops the head only |
| FsProtocolInvariants.FsaKeeps | clientlib/fsprotocol.c:332-499 | every input to the automaton, through its re-entrant calls, keeps: a connection is in unacked exactly once iff its output queue is non-empty iff a retransmit time is set; in ipend exactly once iff marked ready; queues ordered; window respected |
| FsProtocolInvariants.Send1Keeps | clientlib/fsprotocol.c:1258-1304 | sending a frameset without a sequence number keeps the same invariants |
| FsProtocolShutdown.SequencedSendKeepsIff | clientlib/fsprotocol.c:1258-1304 | sending a frameset whose sequence number is cached already keeps the invariants exactly if the connection is shutting down or has output queued; an idle connection is left listed as unacknowledged |
| FsProtocolInvariants.XmitKeeps | clientlib/fsprotocol.c:1416-1503 | transmitting, retransmitting and giving up keep the same invariants |
| Retransmission.DueRetransmits | clientlib/fsprotocol.c:1470-1494 | when a retransmission is due the oldest frameset goes out last; the connection is closed exactly if its ACK timeout has passed and it is neither in NONE nor UP; otherwise queues and state stay and the next retransmission is one interval away |
| Retransmission.NotDueIsQuiet | clientlib/fsprotocol.c:1437-1494 | when none is due, only framesets above the last one sent go out, and queues, state and ACK timeout stay |
| Retransmission.StepRetransmits | clientlib/fsprotocol.c:1416-1503 | sends, arrivals and reads retransmit and give up as the timer does |
| Retransmission.NoEarlyTimeout | clientlib/fsprotocol.c:1485-1489 | in every run with a clock that does not go back, no ACK timeout takes output away before its interval has passed since the output queue became non-empty or an ACK last applied |
| Retransmission.DeadPeerGivenUp | clientlib/fsprotocol.c:1470-1494 | in every such run, a tick later than both intervals after the last event retransmits once more and closes a connection that has output queued and is neither in NONE nor UP |
| Transmission.WindowAlwaysUsed | clientlib/fsprotocol.c:1437-1465 | in every run, whenever fewer framesets are queued than the window is wide, all of them have been transmitted |
| Transmission.SendIsTaken | clientlib/fsprotocol.c:1258-1304 | a send is accepted, as the next id of the session, exactly if the connection is not shutting down and has room; it is reported as failed exactly if there was no room outside shutdown |
| Acks.AckSent | clientlib/fsprotocol.c:1352-1394 | acknowledging puts exactly that one ACK on the wire and remembers the later of it and the last one, unless the input queue is in another session, when it does nothing |
| Acks.ShutdownIsAcked | clientlib/fsprotocol.c:118-162 | the peer's CONNSHUT, when read, is acknowledged in every state but NONE |
| Acks.DuplicateIsAcked | clientlib/fsprotocol.c:1210-1230 | a refused copy at or below the last ACK of its session makes that ACK go out again |
| Acks.ClientAckReleases | clientlib/fsprotocol.c:1352-1394 | between two endpoints, an ACK of what the client was given in the current session goes out, and removes it and all before it from the sender's queue |
| Acks.DuplicateReleases | clientlib/fsprotocol.c:1210-1230 | between two endpoints, a refused copy of what the sender still holds, at or below the last ACK, brings out an ACK that removes it there: a lost ACK is made good |
| Acks.AckCompletes | clientlib/fsprotocol.c:1150-1178 | an ACK for the last frameset of the output queue moves the automaton as "all output done" does; an ACK that finds the queue empty does not move it |
| Acks.ArrivalOpens | clientlib/fsprotocol.c:1200-1208 | on a connection without output, an arrival moves the automaton exactly if it is accepted and has id 1 |
| FsProtocolInvariants.ReceiveKeeps | clientlib/fsprotocol.c:1091-1254 | every arrival that is not sequenced with session id 0 keeps the same invariants; a readable head is marked ready |
| FsProtocolInvariants.ReadHeadKeeps | clientlib/fsprotocol.c:1033-1080 | handing out a head keeps the same invariants |
| FsProtocolInvariants.ReinitKeeps | clientlib/fsprotocol.c:792-835 | a reset makes a connection like a new one, but for a later output session, and keeps the invariants, by which it is off both lists |
| FsProtocolShutdown.TablesAgree | clientlib/fsprotocol.c:118-162 | CONNNAK aside, the two tables agree: entering shutdown sends a CONNSHUT and starts the timer, every way back to NONE closes, and nothing else does |
| FsProtocolShutdown.ShutdownRemembers | clientlib/fsprotocol.c:118-162 | inside shutdown the state is what has happened of two things, the peer's CONNSHUT and the last ACK, and becomes NONE when both have or time has run out |
| FsProtocolShutdown.OpenTables | clientlib/fsprotocol.c:118-162 | outside shutdown, what each input but a CONNNAK does to the state, in terms of who closes and what is acknowledged |
| FsProtocolShutdown.ActionsSay | clientlib/fsprotocol.c:118-162 | a CONNSHUT is acknowledged exactly where there is a connection; connections are closed exactly on the way to NONE, and in NONE on request; what a CONNNAK does in each state |
| FsProtocolShutdown.NakCloses | clientlib/fsprotocol.c:1179-1183 | a CONNNAK outside shutdown empties both queues and moves on to the next session; in SHUT1, SHUT2 and SHUT3 it changes nothing but the state, to NONE |
| FsProtocolShutdown.FsaShut | clientlib/fsprotocol.c:332-499 | every input but a CONNNAK keeps: NONE has an empty output queue, the timer is armed exactly in SHUT1, SHUT2 and SHUT3, and a CONNSHUT is the last frameset of its session |
| FsProtocolShutdown.XmitEffect | clientlib/fsprotocol.c:1416-1503 | transmitting changes bookkeeping only, or closes the connection by an ACK timeout, never when it is up or not open |
| FsProtocolShutdown.ReceiveShut | clientlib/fsprotocol.c:1091-1254 | every arrival but a CONNNAK, and but one sequenced with session id 0, keeps the shutdown invariant |
| Connection.StepKeepsShut | clientlib/fsprotocol.c:332-499 | every operation keeps the shutdown invariant in the absence of a CONNNAK |
| Connection.NakKeepsShutIff | clientlib/fsprotocol.c:118-162 | an arriving CONNNAK keeps the shutdown invariant exactly if the connection is not shutting down |
| Connection.RunKeeps | clientlib/fsprotocol.c:332-1525 | in every run of sends, arrivals, reads, ACKs, ticks, closes and timers all structural invariants hold, and without a CONNNAK the shutdown invariant |
| Connection.NoIdReused | clientlib/fsqueue.c:56-94 | no two framesets accepted in one connection object's life carry the same session and request id |
| Connection.TablesDescend | clientlib/fsprotocol.c:118-162 | inside shutdown the tables never raise the rank of the state and close exactly on the way to NONE |
| Connection.ShutdownDescends | clientlib/fsprotocol.c:332-499 | no operation takes a connection in shutdown anywhere but further down, or to NONE with the next session and an empty queue |
| Connection.ShutTimerEnds | clientlib/fsprotocol.c:1528-1533 | throughout shutdown the timer is armed, and its firing always ends in NONE |
| Connection.ShutdownLeadsToNone | clientlib/fsprotocol.c:410-440 | a run that leaves shutdown passes NONE with a reset session before anything else; nothing is enqueued in between |
| ReadyMarks.ArrivalSpoilsIff | clientlib/fsprotocol.c:1200-1245 | an arrival, if sequenced with a nonzero session id, makes a truthful ready mark wrong exactly in three cases that can be checked on the queue and the frameset |
| ReadyMarks.OldSessionMarksEmptyQueue | clientlib/fsprotocol.c:1237-1245 | a concrete refused frameset of an old session that marks an empty queue ready |
| ReadyMarks.StepKeepsExact | clientlib/fsprotocol.c:1009-1254 | every operation but a spoiling arrival keeps the mark equal to "the head can be handed out" |
| ReadyMarks.SpoiledUnlessClosed | clientlib/fsprotocol.c:1200-1249 | a spoiling arrival leaves the mark wrong unless an ACK timeout closes the connection in the same step |
| Neighbours.StepApart | clientlib/fsprotocol.c:332-1525 | an operation on one connection leaves all others in the shared lists as often as they were and in their order, and sends packets to its own far end only; it can only go to the end of the list itself |
| Host.HostStepKeeps | clientlib/fsprotocol.c:654-1525 | every operation of a process keeps every connection's invariants, and the lists name existing connections only |
| Host.DestroyDangles | clientlib/fsprotocol.c:944-966 | a destroyed connection stays in ipend exactly if it was marked ready with an empty input queue, and never in unacked |
| Host.ReadFromFinds | clientlib/fsprotocol.c:1015-1087 | the read loop hands out the head of the first readable connection in its list |
| Host.ReadIffReadable | clientlib/fsprotocol.c:1009-1087 | read returns a frameset exactly if some connection has a readable head |
| Host.CanCloseIff | clientlib/fsprotocol.c:734-744 | a connection can be closed immediately exactly if its output session has accepted nothing and nothing sequenced has been handed out since its reset; then no output is lost |
| Timers.TimerRetransmits | clientlib/fsprotocol.c:1507-1523 | the timer retransmits for every listed connection that is due, wherever it stands in the list, and gives up those whose ACK timeout has passed |
| Timers.ReadRetransmits | clientlib/fsprotocol.c:1015-1080 | a read retransmits on the connections that it passes over with input that cannot be handed out yet |
| Audits.FspeAlwaysClean | clientlib/fsprotocol.c:527-546 | between operations, the per-connection audit finds output queue and unacked list in agreement |
| Audits.AuditIready | clientlib/fsprotocol.c:555-592 | the audit of ipend stays silent exactly if every connection is marked ready iff its head can be handed out |
| Fairness.ReadBringsNearer | clientlib/fsprotocol.c:1015-1080 | a read either serves a given readable connection or serves one ahead of it and puts that one behind |
| Fairness.Fair | clientlib/fsprotocol.c:1015-1080 | a connection with p others ahead of it whose head stays readable is served by the (p + 1)-th successful read, whatever happens in between |
| Fairness.AheadIsPosition | clientlib/fsprotocol.c:1057-1070 | as many connections are ahead of a list entry as its position says |
| Trails.StepKeepsTrail | clientlib/fsprotocol.c:1352-1503 | the wire carries only framesets that the output queue accepted and ACKs for framesets the client was given, repeated ACKs included; of the queued framesets it carries those up to the last one sent and no others, but for a retransmitted head |
| Trails.WindowBound | clientlib/fsprotocol.c:1437-1470 | in every run, the unacknowledged framesets that are on the wire are a prefix of the output queue that ends at the last one sent, at most window - 1 long; only when it is empty may the head be on the wire besides, by retransmission |
| Delivery.SenderKeeps | clientlib/fsprotocol.c:1258-1503 | moves of the sending endpoint keep the two-endpoint invariant |
| Delivery.ReceiverKeeps | clientlib/fsprotocol.c:1009-1254 | moves of the receiving endpoint keep the two-endpoint invariant |
| Delivery.TurnKeeps | clientlib/fsprotocol.c:596-693 | so do work of other connections in either process, and destroying the receiving connection at any time and making it again while packets of its earlier lives are still on their way |
| HostLinks.HostStepIsTurns | clientlib/fsprotocol.c:654-1525 | whatever a process does with all its connections, short of destroying the one looked at, is, seen from that one, a run of its own moves and of work of others, so the results about two endpoints hold inside such processes |
| HostLinks.DestroyRenews | clientlib/fsprotocol.c:944-966 | destroying the receiving connection and making it again is a new life of that end of the link, with the packets of its earlier life kept apart |
| Delivery.DeliveredInOrder | clientlib/fsqueue.c:116-216 | between resets of the receiving queue, the sequenced framesets handed out, up to and including the one handed out by a read that resets it, are a contiguous stretch of what the peer enqueued, in order, none missing and none twice |
| Delivery.EpochStart | clientlib/fsqueue.c:125-176 | such a stretch starts at 1 after a move to a higher session, and at the adopted id when there was no session |
| Delivery.AckRemovesOnlyDelivered | clientlib/fsprotocol.c:1150-1178 | every frameset that an ACK on the wire, new or from an earlier life of the receiver, removes from the sender's queue, from the start of its stretch on, had been handed to the receiving client |
| Backlog.StepFits | clientlib/fsqueue.c:56-94 | every operation enqueues only what fits the queue as it was, and only an ACK for the session takes framesets off |
| Backlog.AwaitedFitsIff | clientlib/fsqueue.c:116-216 | the frameset that a receiver waits for is accepted or queued already exactly if it opens a session, or there is room, or the queue can be read; it is accepted exactly in the first two cases |
| Backlog.AwaitedFindsRoom | clientlib/fsqueue.c:178-182 | with equal nonzero limits and only sequenced framesets queued, the frameset the receiver waits for is accepted or already queued as long as the sender still holds it |
| Backlog.FullMeansAcked | clientlib/fsqueue.c:178-182 | a full queue that cannot be read means that the sender has had the awaited frameset acknowledged, and the receiver has handed it out before |
| Backlog.FirstVisitFindsRoom | clientlib/fsqueue.c:178-182 | in a session that the receiver has not left before, the awaited frameset is accepted or already queued, whether the sender holds it or not |
| ComeBack.AwaitedCanBeRefused | clientlib/fsqueue.c:178-182 | a concrete run from two new endpoints, with sequenced traffic only and epochs that start at 1, after which a copy of the awaited frameset can arrive and is refused for lack of room |
| Backlog.SequencedTrafficQueue | clientlib/fsqueue.c:120-131 | if only sequenced framesets arrive, only sequenced framesets are queued |
| FsProtocols.FsProtocol.FsaOn | clientlib/fsprotocol.c:332-499 | the automaton on objects, re-entering itself through send1, equals the automaton on values |
| FsProtocols.FsProtocol.Send1On | clientlib/fsprotocol.c:1258-1304 | send1 on objects equals send1 on values |
| FsProtocols.FsProtocol.SendNewOn | clientlib/fsprotocol.c:1437-1470 | the loop transmits exactly the framesets not transmitted before, in queue order |
| FsProtocols.FsProtocol.XmitOn | clientlib/fsprotocol.c:1416-1503 | transmission on objects equals transmission on values |
| FsProtocols.FsProtocol.RexmitOn | clientlib/fsprotocol.c:1476-1494 | retransmission of the head, and the ACK timeout, equal those on values |
| FsProtocols.FsProtocol.ReceiveOn | clientlib/fsprotocol.c:1147-1249 | receiving on objects equals receiving on values |
| FsProtocols.FsProtocol.ReceiveAckOn | clientlib/fsprotocol.c:1150-1178 | an ACK on objects has the same effect as on values |
| FsProtocols.FsProtocol.FileOn | clientlib/fsprotocol.c:1200-1231 | filing an arrival, and repeating the last ACK for a duplicate, equal the function on values |
| FsProtocols.FsProtocol.AckSeqnoOn | clientlib/fsprotocol.c:1352-1394 | sending an ACK on objects equals that on values |
| FsProtocols.FsProtocol.ReinitElem | clientlib/fsprotocol.c:792-835 | the reset of an object equals the reset of a value |
| FsProtocols.FsProtocol.ReadFromElem | clientlib/fsprotocol.c:1033-1080 | handing out a head on objects equals that on values |
| FsProtocols.FsProtocol.AddConnection | clientlib/fsprotocol.c:654-693 | an existing connection is returned and nothing changes; otherwise a new one with queues of its own is added |
| FsProtocols.FsProtocol.ReadNext | clientlib/fsprotocol.c:1009-1087 | the read loop over all connection objects equals the loop on values; connections not visited are unchanged |
| FsProtocols.FsProtocol.TimeoutFun | clientlib/fsprotocol.c:1507-1523 | the retransmit timer transmits on each connection in the list, in order, and touches no other |
| NetAddr.EqualIsCanonical | clientlib/netaddr.c:279-361 | addresses are equal exactly if their canonical forms are the same, so equality is an equivalence across IPv4, IPv6, mapped and loopback forms |
| NetAddr.ToIPv6Keeps | clientlib/netaddr.c:136-162 | exactly IP addresses have an IPv6 form, and it is equivalent to them |
| NetAddr.ToIPv4Keeps | clientlib/netaddr.c:165-195 | an IPv6 address has an IPv4 form exactly if some IPv4 address is equivalent or it is "any"; the form is equivalent exactly if it is not "any", whose form is 0.0.0.0 |
| NetAddr.Hash | clientlib/netaddr.c:366-424 | the shifting loop over the bytes computes the hash of the canonical form |
| NetAddr.EqualHashAlike | clientlib/netaddr.c:366-424 | equal addresses hash alike for every seed |
| NetAddr.FindIff | clientlib/fsprotocol.c:597-622 | a lookup by hash and equality finds the connection for any equivalent address and queue id, and nothing else |
| NetAddr.AddConnUnique | clientlib/fsprotocol.c:654-693 | the table never holds two connections for equivalent endpoints; asking again with any equivalent address returns the same one and changes nothing |
| NetAddr.MaskKeepsLeadingBits | clientlib/netaddr.c:426-463 | a masked address keeps exactly the bits inside the prefix (section 3.1 of RFC 4632) |
| NetAddr.MaskTwice | clientlib/netaddr.c:426-463 | masking by m and then by k bits is masking by the smaller |
| NetAddr.AndWithCidr | clientlib/netaddr.c:426-463 | the word and byte-loop implementations mask in place as the bytewise definition says, and leave other families alone |
| Numerals.DigitsValue | clientlib/netaddr.c:246-255 | a printed number is a numeral with that value |
| Numerals.StrtolNumeral | clientlib/netaddr.c:855-857 | strtol reads a printed number whole and stops at what follows |
| Numerals.DigitsBothCases | clientlib/netaddr.c:855-857 | hexadecimal digits are read in either case, and no other character has a digit's value |
| Numerals.AtoiWraps | clientlib/netaddr.c:722-741 | decimal numbers are read modulo 32 bits, and as -1 above 64 bits |
| AddrRoundTrip.ParseGroups | clientlib/netaddr.c:229-262 | eight words printed with any run of zeros left out are parsed back to the same bytes (section 2.2 of RFC 4291) |
| AddrRoundTrip.ParseMapped | clientlib/netaddr.c:90-116 | an IPv4 address inside IPv6 space, with or without a port, is parsed back |
| AddrRoundTrip.TwoGapsRefused | clientlib/netaddr.c:878-890 | a second double colon, after groups or at the start, makes the text no address |
| AddrRoundTrip.BracketPort | clientlib/netaddr.c:814-830 | the port behind a bracket may be any decimal numeral with a value from 1 to 65535, and nothing else |
| AddrRoundTrip.ParseNumerals | clientlib/netaddr.c:655-757 | four decimal numerals between dots, with a port or without, are read by their values; exactly out of range numbers, an empty port and a colon too far to the right are refused |
| AddrRoundTrip.ParseQuad | clientlib/netaddr.c:655-757 | every IPv4 address, with or without a port, is parsed back |
| AddrRoundTrip.ParsePairs | clientlib/netaddr.c:981-1014 | printed MAC bytes are parsed back, up to eight of them |
| AddrRoundTrip.MacSpellings | clientlib/netaddr.c:981-1014 | hexadecimal numerals with dashes or colons, in either case, are read by their values, up to eight of them; more are refused, and so is a separator at the end |
| AddrRoundTrip.V6NotCaptured | clientlib/netaddr.c:1018-1043 | no printed IPv6 address is taken for an IPv4 one, with or without a port, IPv4 inside IPv6 included |
| AddrRoundTrip.MacNotCaptured | clientlib/netaddr.c:1018-1043 | no printed MAC address is taken for an IP address |
| AddrRoundTrip.RoundTripIff | clientlib/netaddr.c:200-275 | printing and parsing give an address back exactly if it is an IP address, or a 6 or 8 byte MAC address without a port |
| AddrRoundTrip.CanonicalRoundTrip | clientlib/netaddr.c:128-132 | the canonical text of an IP address parses to an equivalent address |
| AddrLoops.PrintGroups | clientlib/netaddr.c:236-262 | the loop with its zero counter and flags prints the first run of two or more zeros as a double colon and everything else in full |
| AddrLoops.ToStringFlex | clientlib/netaddr.c:200-275 | the printer produces the text of the address in either form |
| AddrLoops.StringV4New | clientlib/netaddr.c:655-757 | the IPv4 scanning loop agrees with the parser on strings |
| AddrLoops.StringV6New | clientlib/netaddr.c:769-975 | the IPv6 parser with its brackets and port agrees with the parser on strings |
| AddrLoops.ChunkLoop | clientlib/netaddr.c:853-907 | the chunk loop, with every way out of it, agrees with the recursive one |
| AddrLoops.StringMacNew | clientlib/netaddr.c:981-1014 | the MAC loop agrees with the parser on strings |
| AddrLoops.StringNew | clientlib/netaddr.c:1018-1043 | the parsers are tried in the order that the first character selects |
| Json.DocumentRoundTripIff | clientlib/configcontext.c:682-780 | printing an object and parsing its tokens gives it back exactly if no string looks like an address and every address prints in a form that parses back |
| Json.ParsePrinted | clientlib/configcontext.c:975-1093 | the tokens of any value are parsed to that value as read, and what follows is left alone |
| Json.ReadSameIff | clientlib/configcontext.c:981-1000 | a value survives exactly if its strings and addresses do, at every depth |
| Json.ReplaceAppends | clientlib/configcontext.c:971-971 | setting a key above all others adds it at the end |
| Json.ReplaceSets | clientlib/configcontext.c:971-971 | setting a key in an ordered table keeps it ordered, gives that key the new value and leaves every other key alone |
| Json.ParseAnyOrder | clientlib/configcontext.c:884-929 | an object with its pairs in any order, keys repeated or not, is parsed to an ordered table in which each key has its last value |
| Json.PairSetsOwnKey | clientlib/configcontext.c:933-973 | whatever the tokens, a pair sets its own key if a single colon and a value follow, and changes nothing else |
| Json.AnyTokensKeepOrder | clientlib/configcontext.c:917-929 | whatever tokens come, the members loop keeps the table ordered and loses no key |
| Json.ArrayErrors | clientlib/configcontext.c:1096-1136 | after the items of a list a comma is taken; a missing comma or an error behind one leaves no list; an error in front of the first item is skipped |
| Json.ObjectErrors | clientlib/configcontext.c:871-915 | after the pairs of an object a comma is taken; any other token but the closing one leaves no object, and after a document nothing may follow |
| Json.SignedWraps | clientlib/configcontext.c:998-1026 | numbers are cut to 64 bits with their sign |
| JsonText.QuoteRoundTripIff | clientlib/configcontext.c:653-678 | a quoted string reads back as itself exactly if it has no control characters but the escaped ones (section 7 of RFC 8259) |
| JsonText.RawKeyIsQuoted | clientlib/configcontext.c:692-699 | a key printed as it stands is the quoted key exactly if nothing in it needs an escape |
| JsonText.JsonQuoteString | clientlib/configcontext.c:656-678 | the loop quotes character by character |
| JsonText.ElemToTokens | clientlib/configcontext.c:709-780 | the recursive printer with its loops and commas yields the tokens of the value |
| JsonText.ParseObjAndEOF | clientlib/configcontext.c:871-882 | a document is one object followed by the end of the input |
| JsonText.ParseObjectFrom | clientlib/configcontext.c:884-915 | consuming tokens, the object parser agrees with the function on token lists |
| JsonText.ParseMembersFrom | clientlib/configcontext.c:917-928 | the members loop agrees, with its skipped pairs and trailing comma |
| JsonText.ParseValueFrom | clientlib/configcontext.c:975-1093 | the value parser agrees for every kind of token |
| JsonText.ParseArrayFrom | clientlib/configcontext.c:1094-1136 | the array loop agrees, with its skipped first values and trailing comma |
| Tlv.GetPut | clientlib/tlvhelper.c:55-160 | a big-endian integer of any width reads back as written |
| Tlv.BigEndian | clientlib/tlvhelper.c:55-160 | the first byte of an integer is the most significant one |
| Tlv.PutGet | clientlib/tlvhelper.c:55-160 | writing what was read gives the same bytes |
| Tlv.SplitConcat | clientlib/generic_tlv_min.c:121-176 | a run of entries is taken apart into exactly those entries |
| Tlv.ConcatSplit | clientlib/generic_tlv_min.c:121-176 | bytes that can be taken apart are the run of their entries |
| Tlv.IsValidPacket | clientlib/generic_tlv_min.c:121-176 | the walk over a packet accepts exactly runs that begin with a signature, and any bytes whose first entry leads past their end |
| Tlv.IterationLists | clientlib/generic_tlv_min.c:179-210 | first and next list exactly the entries of a packet through its first END |
| ValueFrames.SeqnoRoundTrip | clientlib/seqnoframe.c:157-195 | sequence numbers and 14 byte values stand for each other one to one, session first, then request id, then queue id |
| ValueFrames.IntRoundTrip | clientlib/intframe.c:94-237 | a value set on an integer frame comes back from its bytes exactly if it fits the width; otherwise the old value does |
| Codec.DecodeBuilt | clientlib/packetdecoder.c:185-285 | decoding a built packet gives one frameset with the same type, flags and frames in order, for every signature, encryption and compression; if compressed, exactly within the decoder's size limits |
| Codec.DecodeFill | clientlib/packetdecoder.c:119-147 | frames filled from the back are decoded from the front, through decryption and decompression |
| Codec.CryptBack | clientlib/cryptcurve25519.c:604-682 | the decoder finds both key names, the nonce and the cipher text, and goes on with the plain text |
| Codec.CompBack | clientlib/compressframe.c:281-331 | the decoder replaces the rest of the packet by the decompressed bytes exactly if their size is above 16 and within the maximum |
| Codec.PreparedIs | clientlib/frameset.c:194-257 | signature, encryption, compression, payload and END stand in this order, with one END |
| Codec.PreparedAgainIff | clientlib/frameset.c:194-257 | building again from the last packet's frames gives the same frames exactly if the added END does not take the size over the compression threshold |
| Codec.CompressedIff | clientlib/frameset.c:194-257 | a built packet holds a compression frame exactly if a method was offered and the bytes of the payload, with the frameset's header, are more than the threshold |
| Codec.DecodeAboveThreshold | clientlib/packetdecoder.c:185-285 | with a threshold of at least 23 every built packet, compressed or not, whose payload is within the decoder's maximum decodes to its frames |
| Codec.FillIsRun | clientlib/frameset.c:263-295 | during the fill the bytes from the current offset to the end are always a well-formed run of entries |
| Codec.IterationListsFrames | clientlib/generic_tlv_min.c:179-210 | iterating over an unencrypted, uncompressed packet lists exactly its frames |
| Codec.SignatureVerifies | clientlib/signframe.c:235-287 | the signature of a filled packet verifies over the final bytes |
| Codec.SignatureOkIff | clientlib/signframe.c:235-284 | in front of other bytes, a signature verifies exactly if it holds their checksum |
| Layouts.DecodeOneIff | clientlib/packetdecoder.c:185-285 | from any bytes the decoder takes a frame exactly if they are laid out as that frame: known key names, a nonce and a box that opens; a known method, a size within the limits and data that inflates; a checksum of some known kind; or a value that its class accepts |
| Layouts.DecodeFramesIff | clientlib/packetdecoder.c:185-285 | any bytes decode to exactly the frames that they stand for one after the other, through encryption and compression |
| Layouts.DecodeIff | clientlib/packetdecoder.c:185-285 | a frameset is taken from a packet exactly if header, frames and all that follows are laid out as one that begins with a signature |
| Codec.ExpandableIff | clientlib/compressframe.c:309-316 | of the decoder's limits only the one on the compressed part matters |
| Packets.UpdateData | clientlib/frameset.c:280-284 | writing a frame puts its entry in front of the bytes already filled in; those are kept, or swallowed in place, or replaced with the buffer |
| Packets.EncryptInPlace | clientlib/cryptcurve25519.c:688-760 | encryption in place lays out names, nonce and cipher text as one entry that reaches to the end |
| Packets.CompressAway | clientlib/compressframe.c:229-275 | compression moves to a new buffer that holds one entry from the same offset to its end |
| Packets.FrameSetObject.Prepare | clientlib/frameset.c:194-257 | stripping, the size estimate and prepending give the prepared list |
| Packets.FrameSetObject.FillFromBack | clientlib/frameset.c:259-295 | the loop with its falling offset ends exactly at the header and has filled in all frames |
| Packets.FrameSetObject.ConstructPacket | clientlib/frameset.c:158-307 | the packet is the header followed by the filled frames |
| Packets.DecodePacket | clientlib/packetdecoder.c:185-285 | the decoding loops agree with the recursive decoder |

## Left out

- Sockets, timers and clocks: a clock reading is a parameter, one for each operation; a timer is a flag that says it is armed, and may fire at any time while it is.
- Session and request ids do not wrap around at 32 and 64 bits, and lengths in the protocol core are unbounded.
- A process's session id for new connections is a parameter, never 0; framesets with session id 0 do not arrive.
- Framesets are values. What the C code adds to a caller's frameset object, its cached sequence number frame, and reference counts are not modelled.
- Sorted insertion dereferences the missing sequence number of an unsequenced entry (clientlib/fsqueue.c:197-200); the model orders such entries below all sequenced ones.
- `_fsprotocol_ackseqno` uses the connection before it checks that there is one (clientlib/fsprotocol.c:1370-1382); the model requires one.
- FsProtocols.FsProtocol.ReadNext: goes over the list of readable connections as it was when the read began; the C loop follows links of the live list, from which transmitting may remove the current entry.
- The list-based send (clientlib/fsprotocol.c:1307-1338) is a sequence of single sends and a transmission; it does not send all or none, because its room test ignores the queue's length.
- Encryption and identity checks in `_fsprotocol_receive`, statistics, logging, the automaton's history, and the actions A_SNDNAK and A_NOSHUT, which no table cell holds.
- FsProtocols.FsProtocol.AddConnection: takes a connection's address as a key that is equal for equivalent addresses; that addresses have such a key, and that lookups respect it, is proved apart from it for the table in NetAddr.
- Host.HostStepKeeps: a connection that is marked ready with an empty input queue is not destroyed, because the C code would then keep a pointer to freed memory in its list.
- Connection.NakKeepsShutIff: says when the shutdown invariant survives a CONNNAK; runs with a CONNNAK during shutdown are not followed further.
- DNS lookups, socket addresses, and prefix length 0, for which the C code shifts by the full width of a word.
- NetAddr.FindIff: is about IP addresses; the C code neither finds nor can add a connection for any other family.
- Floating-point numbers and frames as configuration values, and the lexer of the JSON parser, which is GLib's: objects are printed to and parsed from tokens.
- Json.DocumentRoundTripIff: for keys that need no escape, because keys are printed without escaping.
- JsonText.QuoteRoundTripIff: the four-digit Unicode escapes are not modelled; the printer never writes them.
- Codec.DecodeBuilt: one frameset to a packet, as is sent; the number of frames that the decoder takes is bounded by a parameter, since compressed data can nest without limit.
- FsQueueSpec.EnqKeepsIff: the C code looks at a cached pointer only (clientlib/fsqueue.c:62) and would renumber a frameset whose sequence number frame nobody has looked up yet; in the model a sequence number is always looked up.
- HostLinks.HostStepIsTurns: leaves destroying the connection itself to DestroyRenews, after which the process's record of packets, unlike the link's, still holds those of the earlier life.
- FsProtocolInvariants.Send1Keeps: is about types from MIN_SEQFRAMESET on without a sequence number. What others do is told by SequencedSendKeepsIff and, for lower types, by FsQueueSpec.EnqKeepsIff.
- Packets.CompressAway: takes compression to succeed; when it cannot reach the size of a UDP packet the C code warns and goes on with a null buffer (clientlib/compressframe.c:243-249).
- Delivery.TurnKeeps: the sending connection is not destroyed and made again; it would begin anew with the process's session id and could reuse the ids of framesets still on their way.
- Audits.FspeAlwaysClean: the C code also runs this audit in the middle of operations, where the model has no state of its own.
- Codec.CompBack: the decompressor is given the bytes up to the end of the packet; the C code hands it a size that also counts the entry's header (clientlib/compressframe.c:320-323).
- The checks that individual frame classes make on their values are one predicate, and the C library functions for cipher, compressor and checksum are parameters with the assumptions of `Codec.Inverse`; that these can be met is proved in Codec.
- Key files, key generation, libsodium signatures, the class registry, heartbeats, discovery, packet capture, the resource queue, and everything in Python.
