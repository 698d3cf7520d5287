# RUDP: a verified model of its reliable stream

RUDP gives an ordered, reliable byte stream, and on top of it whole messages, over UDP, which loses, duplicates
and reorders packets. This project models the part of it that does this work and proves what it promises in
every run:

- **SlidingWindow.dfy**: 31-bit sequence numbers that wrap, their relation to unbounded indices, and the deque
  that they address.
- **Packets.dfy**: the packets, and the run-length form in which an ack lists a set of numbers.
- **CongestionControl.dfy**: the window and segment sizes that adapt as acks come in, and which way they move.
- **Sender.dfy**, **Receiver.dfy**: the sender, the receiver and their tick timer. Each is a class whose methods
  are proved against functions on values.
- **SendingEnd.dfy**, **ReceivingEnd.dfy**: the same two halves with their history (every packet ever cut, every
  packet ever stored, every ack ever made), and what each handler keeps.
- **SenderLaws.dfy**, **ReceiverLaws.dfy**: what the handlers do to single packets, and what acks report, without
  the functions that compute it.
- **Stream.dfy**, **StreamTheorems.dfy**: one direction of a connection as a state machine: a sending end, a
  receiving end, and a network that loses, duplicates and reorders but does not forge. The invariant, what holds
  in every run, and that every run can go on until everything has arrived.
- **StreamLaws.dfy**: what every ack and every data packet of a run carries.
- **AckWindow.dfy**: when the receiver's ack window, the other half of a flush, can run empty.
- **Session.dfy**: the handshake of one side as a class, the bound on what it sends, and two sides that handshake
  over a lossy network.
- **Handshake.dfy**: what any packet or tick makes of a session, and when two sides can both end their handshake.
- **Socket.dfy**: the class that owns a session, a sender and a receiver and gives each handler its order of work.
  Its ghost fields carry the two ends of the streams, so each contract says which step of a stream it takes.
- **Codec.dfy**: the packet encoders and decoders, the order in which a socket tries the decoders, and the number
  lists of acks and negative acks.
- **WireLayout.dfy**: where the encoders put what, byte by byte.
- **Connection.dfy**: message framing, the queue of messages that wait for the socket, and the connection class.
- **SocketStreams.dfy**: what each handler of a connected socket does to its two halves, as runs of the stream that
  it sends and of the one that it receives.
- **Line.dfy**: a connection that sends messages, the stream that carries them and the connection that reads them
  back, as one state machine.
- **EndToEnd.dfy**: from a handshake to a stream, whichever side connects first, and packets through the codecs.
- **Runs.dfy**: runs of a transition system, shared by the state machines.

## Assumptions

- *Lifetime.* Sequence numbers repeat after 2^31 packets, so a packet that stays in the network that long cannot
  be told from a new one. A stream delivers data, acks and ack-of-acks only while what they speak of is less than
  2^31 - 512 packets old (`LIFETIME`): for an ack, every packet that it lists; for an ack-of-ack, its own number,
  and, as its ack's numbers are erased from the receiver's set, every packet that is stored and not confirmed.
  Nothing else about the network is assumed.
- *Fresh.* The results that say what can still happen start from a state in which nothing that waits for an
  ack-of-ack comes within one more window, 512 packets, of that age.
- *One write, one read.* A write starts when none is waiting, as `Connection` ensures; `Lines.SendKeeps` proves that
  it does.
- *The peer is honest* in the stream and in the handshake agreement. The handshake budget holds against any
  packets whatever.
- *The environment* comes in as parameters: the time of a handler, how many sends the network refuses before it
  takes one, the link statistics that are copied into acks, and the order of events. Each handler runs without
  interruption, as the strand of a connection makes it.

## Model

| member | source | states |
|---|---|---|
| `StreamTheorems.DeliveredIsPrefix` | src/maidsafe/rudp/core/receiver.cc:70-132 | In every run, with loss, duplication, reordering and wraparound, the bytes handed to the reader are a prefix of the bytes the sender took, and these of the bytes written. |
| `StreamTheorems.NothingLiedNothingForgotten` | src/maidsafe/rudp/core/receiver.cc:147-167 | In every run, what the sender takes for acknowledged is stored, and what is stored is listed by the next ack or already known to the sender, whatever acks and ack-of-acks are lost. |
| `StreamTheorems.NoStuckState` | src/maidsafe/rudp/core/sender.cc:148-215 | From every reachable Fresh state with unacknowledged data some finite sequence of events, in which either end ticks only when its timer has expired, makes the sender trim its front packet. |
| `StreamTheorems.EverythingCanArrive` | src/maidsafe/rudp/core/sender.cc:57-133 | From every reachable Fresh state some finite sequence of events without a write hands every byte ever written to the reader, flushes the sender and leaves nothing stored that is not confirmed; unless the stream was idle already, it empties the ack window too. |
| `AckWindows.AckWindowCanEmpty` | src/maidsafe/rudp/core/socket.cc:256-261 | From a reachable Fresh state the ack window can run empty without another write exactly when the stream is not idle, or the window is empty, or the latest ack or its ack-of-ack is still in the network and young enough. |
| `AckWindows.EverythingCanBeFlushed` | src/maidsafe/rudp/core/socket.cc:256-261 | In exactly these states one continuation delivers every byte and empties both the send window and the ack window, the two halves of a flush. |
| `AckWindows.StrandedIsReachable` | src/maidsafe/rudp/core/receiver.cc:169-177 | Every stream has a run after which its ack window cannot run empty without another write: two acks list the same packet, the first is answered and the second is lost. |
| `StreamTheorems.NoGenuinePacketIsNonsense` | src/maidsafe/rudp/core/sliding_window.h:75-81 | The windows stay aligned: the receiver's end is between the sender's begin and end. So a packet in flight is consumed, in the receive window or coming soon, and the two window tests say exactly which. |
| `StreamTheorems.PacketsFit` | src/maidsafe/rudp/packets/ack_packet.cc:166-173 | In every run each ack has at most 514 ranges, and each ack and data packet fits the send buffer, so no encoder refuses. |
| `StreamTheorems.MessagesCompleteInOrder` | src/maidsafe/rudp/core/sender.cc:119-129 | In every run messages are reported complete as 1, 2, 3 and so on, each only when all packets of it and of all earlier ones are stored at the peer; the functors kept are those of the messages not yet completed. |
| `StreamTheorems.FunctorLookupNeverMisses` | src/maidsafe/rudp/core/socket.cc:359-371 | In every run the messages that an ack completes are all different and each has its functor, for any ack at all. |
| `StreamTheorems.FlushedMeansStored` | src/maidsafe/rudp/core/socket.cc:256-261 | In every run an empty send window means that no write waits, every byte ever written is in a packet that the peer has stored, and no functor is left. |
| `Streams.StepKeepsInv` | src/maidsafe/rudp/core/socket.cc:351-402 | Every handler of either end, and every loss or delay, keeps the invariant that the results above rest on. |
| `Streams.AckMarksExactly` | src/maidsafe/rudp/core/sender.cc:110-116 | Handling an ack marks exactly the packets that it was made for: no wire number is taken for another index. |
| `Streams.Alignment` | src/maidsafe/rudp/core/receiver.cc:104-116 | The invariant puts the end of the receive window between the sender's begin and end, at most 512 apart. |
| `SendingEnds.HandleAckKeeps` | src/maidsafe/rudp/core/sender.cc:91-133 | HandleAck keeps the sender's invariant: the window is the tail of the log, the send timeout follows the front packet, a write waits only for room, the front is unacknowledged and the timer is armed. It acknowledges only what the ack lists. |
| `SendingEnds.EnqueuedKeeps` | src/maidsafe/rudp/core/sender.cc:57-89 | Cutting a write into packets keeps numbering, message chaining and payload: the packets' data joined up is what was taken, in order. |
| `ReceivingEnds.HandleDataKeeps` | src/maidsafe/rudp/core/receiver.cc:99-145 | Reserving, storing and acking keep the receiver's invariant: a slot holds the log's packet exactly when that packet is stored. |
| `ReceivingEnds.AckOfAckKeeps` | src/maidsafe/rudp/core/receiver.cc:147-167 | An ack-of-ack confirms what its ack's snapshot held and nothing else, and keeps the set of unconfirmed numbers exact across wraparound; one for an ack that has left the window changes nothing. |
| `ReceivingEnds.ReadConserves` | src/maidsafe/rudp/core/receiver.cc:70-97 | What ReadData returns followed by what can still be read is what could be read before, and it returns as much as fits. |
| `ReceivingEnds.AckIsSmall` | src/maidsafe/rudp/core/receiver.cc:258-271 | An ack made at any moment has at most 514 ranges, as it lists a difference of two sets that each are a prefix and a window. |
| `SenderLaws.AckDropsConfirmed` | src/maidsafe/rudp/core/sender.cc:91-133 | An ack drops exactly the packets in front of the first one that neither it nor an earlier ack confirms, marks those behind that it confirms, and if it has dropped any sends one of the lost ones. The buffer that it reports moves the segment size and the window as `ControlLaws.AckAdjusts` says; an ack without a report moves neither. |
| `SenderLaws.NegativeAckMarksAdded` | src/maidsafe/rudp/core/sender.cc:135-146 | For a negative ack built from any additions: the candidates are the packets lost before and those whose numbers were added. The candidate with exactly as many before it as sends are refused is sent and no longer lost, all others are lost, nothing else about any packet changes, and the corrupted count grows by the number of window positions added. |
| `SenderLaws.LowestIsSent` | src/maidsafe/rudp/core/sender.cc:160-197 | With no refused send the packet sent is the lowest candidate. |
| `SenderLaws.TickMarksOverdue` | src/maidsafe/rudp/core/sender.cc:148-158 | The same for a tick: when the front packet has never been sent or was last sent 300 ago or longer, the candidates are joined by exactly the unacknowledged packets last sent more than 300 ago, which are counted as lost. |
| `SenderLaws.SendingSendsOne` | src/maidsafe/rudp/core/sender.cc:160-197 | DoSend sends one of the lost packets and asks for a tick 10 later, or sends nothing and asks for one 300 later; the send timeout is then 300 after the front packet was last sent. |
| `ReceiverLaws.NewDataTakesSlot` | src/maidsafe/rudp/core/receiver.cc:99-132 | A new packet less than 512 ahead of the receive window reserves a slot for every number up to its own, takes the last one and is recorded as received; when the slots of the moment run out before that, all of them are reserved and it is dropped. |
| `ReceiverLaws.AckReportsRoom` | src/maidsafe/rudp/core/receiver.cc:251-256 | An ack reports 8162 bytes for exactly the upcoming packets that would each find a slot if they arrived one after the other and nothing was read. |
| `ReceiverLaws.NothingReported` | src/maidsafe/rudp/core/receiver.cc:251-256 | That is 0 exactly when the next new packet would find no slot. |
| `ReceiverLaws.AnsweredAtOnce` | src/maidsafe/rudp/core/receiver.cc:134-140 | An arrival is answered at once exactly when the number of unconfirmed packets is then a multiple of 16 and not 0. |
| `ReceiverLaws.DeadlineFollowsNewest` | src/maidsafe/rudp/core/receiver.cc:169-177 | The deadline of the acks is 1000 after the newest was made: an ack made now sets it, otherwise it stays. |
| `StreamLaws.EveryAckReportsRoom` | src/maidsafe/rudp/core/receiver.cc:194-221 | In every run each ack in the network was made by one event of the run, and reports the room that the receive window had just after that event. |
| `StreamLaws.PacketsAreStamped` | src/maidsafe/rudp/core/sender.cc:57-89 | In every run every packet ever cut, and every one in the network, carries the destination that the sender was set up with; its flag for a first packet says that the packet before it belongs to the same message; only the last packet of a message has less than 1450 bytes. |
| `StreamLaws.WritesFillTheWindow` | src/maidsafe/rudp/core/sender.cc:57-89 | A write is cut into packets of exactly the current segment size, but for the last of a message, and cutting stops when the message is used up or the window has the size that congestion control allows, and not before. |
| `StreamLaws.TimeoutFollowsFront` | src/maidsafe/rudp/core/sender.cc:192-196 | In every reachable stream the send timeout is 300 after the front packet, if there is one, was last sent, and unset if it never was, as a tick relies on. |
| `Senders.Sender.AddData` | src/maidsafe/rudp/core/sender.cc:57-89 | The cutting loop and its DoSend, against the sender's specification: state, bytes taken, packets sent, next tick. |
| `Senders.Sender.DoSend` | src/maidsafe/rudp/core/sender.cc:160-197 | The sending loop, with its next tick and send timeout, against the specification that `SenderLaws.SendingSendsOne` pins. |
| `Senders.Sender.HandleAck` | src/maidsafe/rudp/core/sender.cc:91-133 | Marks, trims, reports completed messages, and sends again exactly when room was made; numbers above 2^31 - 1 mark nothing. |
| `Senders.Sender.HandleNegativeAck` | src/maidsafe/rudp/core/sender.cc:135-146 | The marking loop and its DoSend, against the specification that `SenderLaws.NegativeAckMarksAdded` pins. |
| `Senders.Sender.HandleTick` | src/maidsafe/rudp/core/sender.cc:148-158 | Its marking loop and its DoSend, against the specification that `SenderLaws.TickMarksOverdue` pins. |
| `Receivers.Receiver.ReadData` | src/maidsafe/rudp/core/receiver.cc:70-97 | The reading loop, whose cursor stays at the front although it removes what it reads, does what the specification of reading says. |
| `Receivers.Receiver.HandleData` | src/maidsafe/rudp/core/receiver.cc:99-145 | Reserves, stores, acks at once when the count of unconfirmed numbers is a multiple of 16, and re-arms an expired timer. |
| `Receivers.Receiver.HandleAckOfAck` | src/maidsafe/rudp/core/receiver.cc:147-167 | Erases the ranges of the ack and drops the ack window up to it. |
| `Receivers.Receiver.HandleTick` | src/maidsafe/rudp/core/receiver.cc:169-221 | Adds and sends an ack when there is something to list, and asks for the tick of the newest ack's deadline, against the specification that `ReceiverLaws.AckReportsRoom` and `DeadlineFollowsNewest` pin. |
| `Receivers.CompressRuns` | src/maidsafe/rudp/core/receiver.cc:258-271 | The two nested loops compute the run-length form of the set. |
| `AckRanges.RunsAreExact` | src/maidsafe/rudp/core/receiver.cc:258-271 | The ranges of an ack are sorted, disjoint and not adjacent, cover exactly the set, and are as many as it has maximal runs. |
| `AckRanges.RunLengthUnique` | src/maidsafe/rudp/core/receiver.cc:258-271 | A set has only one run-length form. |
| `SequenceNumbers.WireInjective` | src/maidsafe/rudp/core/sliding_window.h:148-149 | Two indices less than 2^31 apart with the same wire number are the same. |
| `SlidingWindows.ContainsIsPosition` | src/maidsafe/rudp/core/sliding_window.h:72-73 | A number is in the window exactly when it is the number of a position, which is then unique. |
| `SlidingWindows.SlidingWindow.Contains` | src/maidsafe/rudp/core/sliding_window.h:175-181 | The comparisons of the number with begin and end, wrapped around or not, decide membership by position. |
| `SlidingWindows.SlidingWindow.IsComingSoon` | src/maidsafe/rudp/core/sliding_window.h:75-81 | The comparisons are true exactly for the 512 numbers from the end on. |
| `SlidingWindows.SlidingWindow.Size` | src/maidsafe/rudp/core/sliding_window.h:91-92 | The number of items is the distance from begin to end modulo 2^31, at most 512. |
| `SlidingWindows.SlidingWindow.SequenceNumberToIndex` | src/maidsafe/rudp/core/sliding_window.h:156-165 | The index of a number in the window is the position that has that number. |
| `SlidingWindows.SlidingWindow.Append` | src/maidsafe/rudp/core/sliding_window.h:100-108 | Appends an item under the number that the end had. |
| `SlidingWindows.SlidingWindow.Remove` | src/maidsafe/rudp/core/sliding_window.h:110-116 | Removes the front; the other items keep their numbers. |
| `CongestionControls.SendControlRun` | src/maidsafe/rudp/core/congestion_control.cc:150-208 | Over every run of acks, negative acks and timeouts the send window stays a multiple of 16 from 64 to 512 and the data size from 1450 to 8162. |
| `CongestionControls.CongestionControl.OnAck` | src/maidsafe/rudp/core/congestion_control.cc:173-203 | The adjustments in place, against the specification that `ControlLaws.AckAdjusts` pins; no subtraction goes below zero. |
| `ControlLaws.AckAdjusts` | src/maidsafe/rudp/core/congestion_control.cc:173-203 | More losses than tolerated shrink the segment by a tenth, strictly above 1450; otherwise it grows by a half, strictly below 8162. The window moves 16 up when the reported buffer has room for 16 segments, 16 down when it has not even room for 8, and not otherwise, within 64 and 512. |
| `ControlLaws.AcksReachTheTop` | src/maidsafe/rudp/core/congestion_control.cc:173-203 | From any state 28 or more acks without losses that report 16 * 8162 bytes or more reach a window of 512 and segments of 8162. |
| `ControlLaws.FullBufferReachesTheBottom` | src/maidsafe/rudp/core/congestion_control.cc:193-203 | 28 or more acks that report a full buffer bring the window down to 64, whatever was lost. |
| `ControlLaws.WindowOpensOnce` | src/maidsafe/rudp/core/congestion_control.cc:91-141 | Over every run of arrivals and acks the receive window has 64 slots until an ack is made after nine packets have arrived, and 512 from then on. |
| `ControlLaws.BetterTolerateLess` | src/maidsafe/rudp/core/congestion_control.cc:227-238 | Among the connection types up to gigabit Ethernet a better one never tolerates more lost packets, whichever end has it, and at least one is tolerated; with a wireless end it is five. |
| `HandshakeAgreement.Agreement` | src/maidsafe/rudp/core/session.cc:131-284 | In every run of two honest sessions over a lossy network, a connected session has its cookie recorded by the peer and knows the peer's first data number, socket id and connection type; a session that takes its peer for connected is right. |
| `HandshakeAgreement.ReceivingNumberIsFinal` | src/maidsafe/rudp/core/session.cc:184-189 | Once a session has connected, nothing that happens later changes its receiving number. |
| `HandshakeAgreement.HalfOpenCanComplete` | src/maidsafe/rudp/core/session.cc:332-341 | In every run, when one side is connected and the other is open but not connected, some continuation connects both exactly when the other side has opened to stay and has retries left, and the connected one has retries left or a second stage packet of its still in flight. |
| `HandshakeAgreement.ConnectedSideCanRunOut` | src/maidsafe/rudp/core/session.cc:332-341 | Some run reaches a half-open pair that cannot complete because the connected side has used up its retries and nothing of it is in flight. |
| `HandshakeAgreement.OtherSideCanRunOut` | src/maidsafe/rudp/core/session.cc:237-243 | Some run reaches one that cannot complete because the other side has used up its retries. |
| `HandshakeAgreement.OtherSideCanBeDropping` | src/maidsafe/rudp/core/socket.cc:315-317 | Some run reaches one that cannot complete, with retries on both sides, because the other side has opened only to drop. |
| `HandshakeEnds.StopEndsTicks` | src/maidsafe/rudp/core/session.cc:259-272 | In every run, when a connected side receives a stop packet that is in flight, it takes its peer for connected from then on, and its ticks add nothing to its packets, whatever else happens. |
| `HandshakeEnds.FinishesExactlyWhen` | src/maidsafe/rudp/core/session.cc:332-341 | In every run with both sides connected, some continuation brings both estimates to connected exactly when, for each side, it is there already, or a stop packet for it is in flight, or the other side has not heard yet and has retries left. |
| `HandshakeEnds.OneSideCanMissIt` | src/maidsafe/rudp/core/session.cc:332-341 | Some run connects both sides so that one of them can never learn it: the other has heard, and all that it sent is lost. |
| `HandshakeEnds.HalfOpenFinishesExactlyWhen` | src/maidsafe/rudp/core/session.cc:332-341 | In every run with one side connected and the other open, some continuation does so exactly when the other side has opened to stay and has retries left, and the connected one has retries left or both a second stage and a stop packet in flight. |
| `HandshakeEnds.EveryHandshakeCanFinish` | src/maidsafe/rudp/core/session.cc:131-284 | From the start any two sides that do not know each other can get that far. |
| `SessionLaws.ConnectsExactlyWhen` | src/maidsafe/rudp/core/session.cc:131-284 | An open session connects exactly on a second stage packet of its peer that returns its cookie, when it knows the peer's, has retries left, and the packet has a valid endpoint and a key; whoever sends packets. |
| `SessionLaws.ClosesExactlyWhen` | src/maidsafe/rudp/core/session.cc:212-284 | A session closes exactly on a packet from another node, on any packet of its peer while it is open and out of retries, or on such a second stage packet without a valid endpoint or key. |
| `SessionLaws.HearsExactlyWhen` | src/maidsafe/rudp/core/session.cc:259-272 | The estimate of the peer becomes connected exactly on a stop packet that returns the session's cookie while it is connected. |
| `SessionLaws.WhatConnectingRecords` | src/maidsafe/rudp/core/session.cc:184-209 | A session that connects drops exactly when either side asked for it, is normal exactly when both are, and records the packet's number and type. |
| `SessionLaws.WhatIsAnswered` | src/maidsafe/rudp/core/session.cc:131-209 | The first initial packet is answered with a second stage packet, the packet that connects a session to stay with a second stage and a stop packet, and no other packet at all. |
| `SessionLaws.WhatATickSends` | src/maidsafe/rudp/core/session.cc:332-341 | What a tick sends in each state, and that it sends nothing without retries or once both are connected. |
| `SessionLaws.WhatPacketsSay` | src/maidsafe/rudp/core/session.cc:343-426 | Initial packets tell the session's own cookie and mode, second stage packets its first data number and key; these and stop packets return the peer's cookie. |
| `HandshakeBudget.HandshakeBudget` | src/maidsafe/rudp/core/session.cc:332-345 | One Open sends at most 41 handshake packets over its whole life, whatever packets come in and however often it ticks. |
| `HandshakeBudget.HandshakeBudgetIsReached` | src/maidsafe/rudp/core/session.cc:332-345 | Some run sends all 41, so the bound is exact. |
| `Sessions.Session.HandleHandshake` | src/maidsafe/rudp/core/session.cc:212-284 | The handler with its two helpers, against the specification that the handshake results pin; it asks for a tick 250 later exactly when it sends. |
| `Sessions.Session.HandleTick` | src/maidsafe/rudp/core/session.cc:332-341 | Up to three resends, against the specification that `SessionLaws.WhatATickSends` pins, and a tick 250 later exactly when it sends. |
| `Sockets.Socket.StartConnect` | src/maidsafe/rudp/core/socket.cc:148-162 | The session announces the number that the send window ends with, the peer's socket id is forgotten and the timer is armed. |
| `Sockets.Socket.StartWrite` | src/maidsafe/rudp/core/socket.cc:181-216 | A write takes the step of the sending end; an empty one does nothing. |
| `Sockets.Socket.StartRead` | src/maidsafe/rudp/core/socket.cc:218-252 | A read delivers the next bytes of the stream and is done when it is full or has as much as it needs. |
| `Sockets.Socket.HandleAck` | src/maidsafe/rudp/core/socket.cc:359-376 | Takes the ack's step at the sending end, then reads and writes; when the sender's invariant holds no functor is missing. Ignored unless connected. An armed timer stays armed. |
| `Sockets.Socket.HandleData` | src/maidsafe/rudp/core/socket.cc:351-357 | Takes the data step at the receiving end, then reads and writes, and leaves the timer armed. Ignored unless connected. |
| `Sockets.Socket.HandleAckOfAck` | src/maidsafe/rudp/core/socket.cc:378-385 | Takes the ack-of-ack's step at the receiving end, then reads and writes. Ignored unless connected. |
| `Sockets.Socket.HandleNegativeAck` | src/maidsafe/rudp/core/socket.cc:387-391 | Takes the negative ack's step at the sending end. Ignored unless connected. |
| `Sockets.Socket.Tick` | src/maidsafe/rudp/operations/tick_op.h:49-60 | An expired timer is reset, the session ticks, and if connected both ends tick and the soonest request wins; a tick that is early or finds the session closed does nothing. |
| `Sockets.Socket.HandleHandshake` | src/maidsafe/rudp/core/socket.cc:305-327 | The sender is addressed to the socket that the session knows its peer by. On the transition to connected the receive window is put at the peer's first number and the timer is armed; a connection to be dropped closes at once. |
| `Sockets.TickTimes` | src/maidsafe/rudp/core/socket.cc:393-402 | Although session, sender, receiver and write share one timer, a tick does to each end what it does in a stream. |
| `EndToEnd.HandshakeStartsStream` | src/maidsafe/rudp/core/socket.cc:315-325 | When a session connects and its socket sets up the receive window, the stream from the peer is a reachable one, whatever a peer that connected first has written, sent and lost in the meantime. |
| `EndToEnd.HandshakeWaitsForSender` | src/maidsafe/rudp/core/socket.cc:315-325 | When the receiving side has connected first and has been ticking and reading in the meantime, the stream begins when the sending side connects. |
| `SocketStreams.TickIsRun` | src/maidsafe/rudp/core/socket.cc:393-402 | A tick of a connected socket, in the terms of its contract, is a run of the stream that it sends and a run of the one that it receives, whatever the session asks of the timer that both share. |
| `SocketStreams.NextTickIs` | src/maidsafe/rudp/core/sender.cc:186-189 | The sending half of a socket's tick asks for the next one 10 later when it has sent something, and 300 later when it has sent nothing. |
| `SocketStreams.AckIsRun` | src/maidsafe/rudp/core/socket.cc:359-376 | So is the handling of an ack from the network, with its answer, the read and the write. |
| `SocketStreams.DataIsRun` | src/maidsafe/rudp/core/socket.cc:351-357 | So is the handling of a data packet from the network. |
| `SocketStreams.AckOfAckIsRun` | src/maidsafe/rudp/core/socket.cc:378-385 | So is the handling of an ack-of-ack from the network. |
| `SocketStreams.NegativeAckIsRun` | src/maidsafe/rudp/core/socket.cc:387-391 | So is the handling of any negative ack. |
| `SocketStreams.WriteIsRun` | src/maidsafe/rudp/core/socket.cc:181-216 | So is a write when none is waiting. |
| `SocketStreams.ReadIsRun` | src/maidsafe/rudp/core/socket.cc:218-252 | So is a read. |
| `SocketStreams.HandshakeIsRun` | src/maidsafe/rudp/core/socket.cc:305-327 | So is a handshake packet that finds the session connected. |
| `EndToEnd.PacketsSurviveTheWire` | src/maidsafe/rudp/core/socket.cc:274-299 | In every run each ack and data packet in flight fits the buffer, and decoding its bytes gives the same packet. |
| `Lines.SendKeeps` | src/maidsafe/rudp/connection.cc:225-256 | A message can be handed in at any moment: the connection never starts a write while the socket has one waiting. |
| `Lines.MessagesArriveInOrder` | src/maidsafe/rudp/connection.cc:455-561 | In every run of a connection, its stream and the connection that reads at the other end, the messages handed up are the first of those handed in, whole and in order, and the reader never gives up. |
| `Lines.EveryMessageCanArrive` | src/maidsafe/rudp/connection.cc:225-256 | From every Fresh state that such a run reaches some continuation, in which bytes are taken only into the reads that the connection itself has outstanding, hands up every message ever handed in. |
| `Reads.ReadThenAll` | src/maidsafe/rudp/core/receiver.cc:70-97 | A read of any size followed by a large one leaves the receiver as the large one alone does. |
| `CodecSpec.DispatchRoundTrip` | src/maidsafe/rudp/core/socket.cc:274-299 | For every packet of every kind that an encoder accepts, the chain of decoders picks the kind that was encoded and recovers every field. |
| `CodecSpec.HandshakeRoundTrip` | src/maidsafe/rudp/packets/handshake_packet.cc:129-255 | A handshake packet keeps all its fields on the wire, its id, address and key as bytes, and is taken for no other kind. |
| `CodecSpec.AckRoundTrip` | src/maidsafe/rudp/packets/ack_packet.cc:120-210 | An ack's ranges, number and optional fields survive the wire, in exactly the bytes that Encode asks for. |
| `Codecs.EncodeAck` | src/maidsafe/rudp/packets/ack_packet.cc:166-210 | Writes the packet as `WireLayouts.AckLayout` lays it out, or refuses and leaves the buffer alone when it is too small. |
| `Codecs.DecodeAckPacket` | src/maidsafe/rudp/packets/ack_packet.cc:120-164 | The decoding loop accepts and returns what the decoding function does, for all bytes with a count below 2^30. |
| `Codecs.EncodeData` | src/maidsafe/rudp/packets/data_packet.cc:114-148 | Writes the 16 header bytes as `WireLayouts.DataLayout` lays them out, the payload being sent from where it is, or refuses when the packet is too big. |
| `Codecs.EncodeNegativeAck` | src/maidsafe/rudp/packets/negative_ack_packet.cc:99-115 | Writes the packet as `WireLayouts.NegativeAckLayout` lays it out, or refuses. |
| `Codecs.EncodeHandshake` | src/maidsafe/rudp/packets/handshake_packet.cc:198-255 | Writes all fields of a handshake as `WireLayouts.HandshakeLayout` lays them out, or refuses. |
| `Codecs.EncodeAckOfAck` | src/maidsafe/rudp/packets/ack_of_ack_packet.cc:45-47 | Writes a header of kind 6 with the ack's number in bytes 4 to 7, or refuses. |
| `Codecs.EncodeKeepalive` | src/maidsafe/rudp/packets/keepalive_packet.cc:58-60 | Writes a header of kind 1 with the sequence number in bytes 4 to 7, or refuses. |
| `Codecs.EncodeShutdown` | src/maidsafe/rudp/packets/shutdown_packet.cc:43-45 | Writes a header of kind 5, or refuses. |
| `WireLayouts.AckLayout` | src/maidsafe/rudp/packets/ack_packet.cc:166-210 | An ack on the wire: 0x80 and 2 in bytes 0 and 1; number, time stamp and destination in bytes 4, 8 and 12; the count of words in byte 16; then first + 2^31 and last of each range, and the five reported values; each of four bytes, most significant first. |
| `WireLayouts.NegativeAckLayout` | src/maidsafe/rudp/packets/negative_ack_packet.cc:99-115 | A negative ack on the wire: 0x80 and 3, the same header, and its words from byte 16 on. |
| `WireLayouts.DataLayout` | src/maidsafe/rudp/packets/data_packet.cc:114-148 | A data packet on the wire: top bit clear and the sequence number in bytes 0 to 3; the three flags in the top bits of byte 4 above the message number; time stamp, destination and payload behind. |
| `WireLayouts.HandshakeLayout` | src/maidsafe/rudp/packets/handshake_packet.cc:198-255 | A handshake on the wire: 0x80 and 0, and the place of each field. |
| `WireLayouts.KindsOnTheWire` | src/maidsafe/rudp/packets/control_packet.cc:83-99 | The first two bytes of an encoded packet tell its kind: below 0x80 for data, else 0x80 with 2, 3, 6, 1, 0 or 5 for ack, negative ack, ack-of-ack, keepalive, handshake or shutdown. |
| `PacketNumbers.AckAndNegativeAckAgree` | src/maidsafe/rudp/packets/negative_ack_packet.cc:33-72 | For the same additions, wrapping ranges included, an ack and a negative ack list the same numbers. |
| `PacketNumbers.NegativeAckListsAdditions` | src/maidsafe/rudp/packets/negative_ack_packet.cc:50-72 | The scan finds exactly the union of what was added, although it visits a range's end word again as a single number. |
| `PacketNumbers.AckListsAdditions` | src/maidsafe/rudp/packets/ack_packet.cc:92-110 | An ack lists exactly the union of what was added, wrapping ranges having been split. |
| `PacketNumbers.Scan` | src/maidsafe/rudp/packets/negative_ack_packet.cc:50-72 | The scanning loop decides that membership. |
| `Framing.FramingRoundTrip` | src/maidsafe/rudp/connection.cc:455-561 | However the stream of frames is cut into reads, the reader hands up the messages in order, never stops, and has handed up all of them when the stream is used up. |
| `Framing.EveryReadingCanFinish` | src/maidsafe/rudp/connection.cc:501-552 | Any way of beginning to read the frames can be continued until every message has been handed up. |
| `Framing.FrameLayout` | src/maidsafe/rudp/connection.cc:554-561 | A frame has the size of its message modulo 2^32 in its first four bytes, most significant first, and then the message. |
| `Framing.ReaderStopsExactly` | src/maidsafe/rudp/connection.cc:485-494 | The reader gives up exactly on a size of more than 2098176 bytes. |
| `Outboxes.QueuedKeeps` | src/maidsafe/rudp/connection.cc:225-231 | Queueing keeps the messages first in first out: submitted are those started, then the scheduled one, then the queue. |
| `Outboxes.FinishedKeeps` | src/maidsafe/rudp/connection.cc:233-240 | So does finishing a write; with an empty queue, everything submitted has been started. |
| `Connections.Connection.DoQueueSendRequest` | src/maidsafe/rudp/connection.cc:225-231 | Takes the queueing step and hands the whole frame to the socket exactly when nothing is being sent. |
| `Connections.Connection.HandleReadData` | src/maidsafe/rudp/connection.cc:516-552 | Takes the reader's step for a piece of data: hands the message up when it is complete, else waits for more. |
| `Connections.Connection.EncodeData` | src/maidsafe/rudp/connection.cc:554-561 | Fills the send buffer with the low 32 bits of the size, most significant byte first, and the message. |

## Findings

- The documentation (docs/msg_send_receive.txt, docs/boostrap_msg_seq.txt) and a comment in connection.cc speak of
  a length prefix of 3 bytes. The code writes and reads 4; the model follows the code.
- A half-open handshake can be beyond rescue. A connected session whose retries are used up sends nothing and
  answers nothing, so once none of its second stage packets is in flight its peer can never connect. A peer whose
  own retries are used up closes on the next handshake packet instead of connecting, and a peer that has opened only
  to drop closes when it connects. `HandshakeAgreement.HalfOpenCanComplete` gives the exact condition;
  `ConnectedSideCanRunOut`, `OtherSideCanRunOut` and `OtherSideCanBeDropping` give runs that lead there.
- Both sides may be connected and one of them never learn it: when no stop packet for it is in flight and the other
  side has used up its retries or has itself heard already, nothing will tell it. It resends until its own retries run
  out. `HandshakeEnds.FinishesExactlyWhen` gives the exact condition, `HandshakeEnds.OneSideCanMissIt` a run that leads
  there.
- A flush may never complete although everything has been delivered. Only an ack-of-ack empties the receiver's ack
  window. When two acks list the same packets, the first is answered and the second or its answer is lost, nothing is
  left to acknowledge, so no further ack is sent; until more data arrives the window keeps the second ack,
  Socket::ProcessFlush does not complete, and each tick of the receiver asks for a deadline that has passed.
  `AckWindows.AckWindowCanEmpty` gives the exact condition, `AckWindows.StrandedIsReachable` a run that leads there.
- The handshake retries are 40, but 41 packets can be sent: one tick with one retry left may send two packets.
- The flag for the first packet of a message is set on every packet but the first (core/sender.cc:73). The model
  keeps this, `StreamLaws.PacketsAreStamped` says it; nothing reads the flag.
- Until the front packet has been sent, the send timeout is not_a_date_time plus an interval, which compares as
  reached (core/sender.cc:150 and 195). A tick then looks for expired packets at once; that finds none that was
  never sent, and does no harm.

## Left out

- The multiplexer, the dispatcher, the asio operations other than TickOp, strands and locks: plumbing around the
  handlers. A handler is one atomic step.
- ManagedConnections, Transport and ConnectionManager: bookkeeping of many connections, callbacks and lookups.
- Public keys, NAT detection and the check of the reported external endpoint: library types. For the session, a
  handshake packet carries whether its endpoint is valid and whether it has a key, as that decides the branches.
- CodecSpec.HandshakeRoundTrip: keeps address and key as bytes; which addresses the library takes for IPv4 and which
  keys it refuses is not modelled.
- Session::MakeNormal, by which a connection that becomes permanent changes its session's mode.
- When bytes are copied into an outstanding read: the code does it when the read starts and at the end of handlers,
  `Lines` lets it happen at any moment.
- Senders.Sender.HandleAck: requires that no range ends at 2^32 - 1, since the marking loop of the code, which counts
  in 32 bits, never ends on such a range.
- Codecs.DecodeAckPacket: does not model counts from 2^30 on. There the code's 32-bit product wraps, so that the
  length test can pass although the words are not there; no encoder makes such a packet.
- Connections.Connection.HandleReadSize: does not model lengths from 2^31 on, which are negative in the code and
  pass its limit; the model stops on them. No sender of messages within the limit makes one.
- Keepalive probes, shutdown packets beyond their codecs, and closing a socket with its pending operations.
- Connection lifecycle: `Stopped()` branches, timeouts, lifespans and the closing of a connection. The reader's
  Stopped phase models only the refusal of an over-size message.
- Empty messages and messages over the size limit: an empty write completes at once without a step of the stream,
  and the over-size check in StartSending reports the error and sends all the same. The connection class takes
  messages of any size, but the framing and the line have messages of 1 to 2097152 bytes.
- Round trip times, arrival rates and link capacity, and the destination of acks: they come in with the link
  statistics, end up in acks as given and steer nothing in the model. Of the arrival times only their number is kept,
  which decides when the receive window grows.
- Rounding: 0.9 and 1.5 times the data size are taken as floors of rationals; the bounds do not depend on it.
- Message numbers are unbounded; `EndToEnd.PacketsSurviveTheWire` covers data packets of the first 2^29 messages,
  beyond which SetMessageNumber asserts.
- Negative acks are handled by the sender and arrive in a stream with any content at any time; the receiver's own
  AddMissingSequenceNumbersToNegAck is unused in the code and not modelled.
- Malformed packets that no encoder here makes: the decoders are modelled for all bytes but for what is said above,
  the streams for what an honest peer sends.
- The ack-of-ack that answers an ack is taken to be handed to the network; a failed send is the same as its loss.
