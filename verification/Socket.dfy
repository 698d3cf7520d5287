/** The handlers that drive a session, a sender and a receiver. A socket is the sending end of one stream
    and the receiving end of another; both ends move the same timer. */
module Sockets {
  import opened SequenceNumbers
  import opened SlidingWindows
  import opened Packets
  import opened CongestionControls
  import opened TickTimers
  import opened SenderSpec
  import opened Senders
  import opened ReceiverSpec
  import opened Receivers
  import opened SendingEnds
  import opened ReceivingEnds
  import opened SessionSpec
  import opened Sessions

  class Socket {
    const session: Session
    const control: CongestionControl
    const timer: TickTimer
    const sender: Sender
    const receiver: Receiver
    // The write in progress and the functors of the messages that are not completed.
    var waitingWrite: seq<Byte>
    var message: nat
    var functors: set<nat>
    // The read in progress: room left in its buffer, bytes it needs, bytes it has.
    var readRoom: nat
    var readAtLeast: nat
    var readTransferred: nat
    // The socket as the sending end of its stream and as the receiving end of its peer's.
    ghost var outgoing: SendingEnd
    ghost var incoming: ReceivingEnd

    ghost predicate Valid()
      reads this, sender, sender.unacked, sender.control, receiver, receiver.unread, receiver.acks, receiver.control, timer,
        session`peerSocket
    {
      && sender.Valid() && receiver.Valid() && Wired()
      && outgoing.state == sender.State() && outgoing.timer == timer.expiry && outgoing.destination == session.peerSocket
      && outgoing.waiting == waitingWrite && outgoing.message == message && outgoing.functors == functors
      && incoming.state == receiver.State() && incoming.timer == timer.expiry
      && incoming.ackLow + |incoming.state.acks.items| <= |incoming.records|
    }

    /** The parts share one timer and one congestion control, and their windows are different objects. */
    ghost predicate Wired() {
      && sender.control == control && receiver.control == control
      && sender.timer == timer && receiver.timer == timer && session.timer == timer
      && sender.unacked as object != receiver.unread as object && sender.unacked as object != receiver.acks as object
      && receiver.unread as object != receiver.acks as object
    }

    /** The three sequence numbers are those that the windows start with. */
    constructor (peer: nat, first: SeqNum, expected: SeqNum, firstAck: SeqNum)
      ensures Valid() && session.state == Closed && timer.expiry == None && readRoom == 0
      ensures NothingSent(outgoing, first) && NothingReceived(incoming, expected, firstAck)
    {
      var t := new TickTimer();
      var c := new CongestionControl();
      this.timer := t;
      this.control := c;
      this.session := new Session(t, peer);
      var s := new Sender(c, t, first);
      var r := new Receiver(c, t, expected, firstAck);
      this.sender := s;
      this.receiver := r;
      waitingWrite, message, functors := [], 0, {};
      readRoom, readAtLeast, readTransferred := 0, 0, 0;
      outgoing := SendingEnd(s.State(), None, 0, [], 0, {}, [], 0, [], [], []);
      incoming := ReceivingEnd(r.State(), None, 0, {}, [], [], 0, {}, 0);
    }

    /** Opens the session; the number it will announce is the one that the send window starts with. */
    method StartConnect(id: Uint32, thisId: nat, peerId: nat, mode: Mode, now: int) returns (handshakes: seq<HandshakePacket>)
      requires Valid() && session.state == Closed
      modifies session, timer, this`outgoing, this`incoming
      ensures Valid() && timer.expiry.Some?
      ensures Outcome(session.View(), handshakes) ==
        SessionSpec.Open(old(session.View()).(peerId := peerId, peerSocket := 0), id, thisId, outgoing.state.window.End(), mode)
      ensures outgoing == old(outgoing).(timer := timer.expiry, destination := 0) && incoming == old(incoming).(timer := timer.expiry)
    {
      session.peerId := peerId;
      session.peerSocket := 0;
      handshakes := session.Open(id, thisId, sender.unacked.end, mode, now);
      outgoing, incoming := outgoing.(timer := timer.expiry, destination := 0), incoming.(timer := timer.expiry);
    }

    method StartWrite(data: seq<Byte>, now: int, failures: nat) returns (packets: seq<DataPacket>)
      requires Valid() && waitingWrite == []
      modifies this`waitingWrite, this`message, this`functors, this`outgoing, this`incoming, sender, sender.unacked, timer
      ensures Valid() && incoming == old(incoming).(timer := timer.expiry)
      ensures data == [] ==> packets == [] && outgoing == old(outgoing)
      ensures data != [] ==> var o := SendingEnds.StartWrite(old(outgoing), data, now, failures);
        outgoing == o.end && PacketSet(packets) == PacketsOf(o.flights)
    {
      packets := [];
      if data == [] {
        return;
      }
      waitingWrite := data;
      message := message + 1;
      functors := functors + {message};
      outgoing := NewMessage(outgoing, data);
      packets := ProcessWrite(now, failures);
    }

    method ProcessWrite(now: int, failures: nat) returns (packets: seq<DataPacket>)
      requires Valid()
      modifies this`waitingWrite, this`outgoing, this`incoming, sender, sender.unacked, timer
      ensures Valid() && incoming == old(incoming).(timer := timer.expiry)
      ensures var o := SendingEnds.ProcessWrite(old(outgoing), now, failures);
        outgoing == o.end && PacketSet(packets) == PacketsOf(o.flights)
    {
      packets := [];
      if waitingWrite == [] {
        return;
      }
      var length;
      length, packets := sender.AddData(waitingWrite, message, session.peerSocket, now, failures);
      DataAdded(outgoing, now, failures, length, sender.State(), packets);
      waitingWrite := waitingWrite[length..];
      outgoing := SendingEnds.ProcessWrite(outgoing, now, failures).end;
      incoming := incoming.(timer := timer.expiry);
    }

    method StartRead(size: nat, atLeast: nat) returns (data: seq<Byte>, done: bool)
      requires Valid()
      modifies this`readRoom, this`readAtLeast, this`readTransferred, this`incoming, receiver.unread
      ensures Valid() && outgoing == old(outgoing) && incoming.delivered == old(incoming).delivered + data
      ensures size == 0 ==> done && data == [] && incoming == old(incoming)
      ensures size > 0 ==> incoming == ReadOut(old(incoming), size)
      ensures size > 0 ==> (done <==> |data| == size || |data| >= atLeast)
    {
      if size == 0 {
        return [], true;
      }
      readRoom := size;
      readAtLeast := atLeast;
      readTransferred := 0;
      data, done := ProcessRead();
    }

    /** Reads what fits; the read is done when its buffer is full or it has as much as it needs. */
    method ProcessRead() returns (data: seq<Byte>, done: bool)
      requires Valid()
      modifies this`readRoom, this`readTransferred, this`incoming, receiver.unread
      ensures Valid() && outgoing == old(outgoing)
      ensures incoming == ReadOut(old(incoming), old(readRoom)) && incoming.delivered == old(incoming).delivered + data
      ensures |data| <= old(readRoom) && readRoom == old(readRoom) - |data|
      ensures readTransferred == old(readTransferred) + |data|
      ensures done <==> old(readRoom) > 0 && (readRoom == 0 || readTransferred >= readAtLeast)
    {
      DataRead(incoming, readRoom);
      if readRoom == 0 {
        return [], false;
      }
      data := receiver.ReadData(readRoom);
      incoming := ReadOut(incoming, readRoom);
      readRoom := readRoom - |data|;
      readTransferred := readTransferred + |data|;
      done := readRoom == 0 || readTransferred >= readAtLeast;
    }

    /** A flush completes when nothing is unacknowledged and no ack waits for its ack-of-ack. */
    method ProcessFlush() returns (done: bool)
      requires Valid()
      ensures done <==> outgoing.state.window.items == [] && incoming.state.acks.items == []
    {
      done := sender.unacked.IsEmpty() && receiver.acks.IsEmpty();
    }

    /** Calls and erases the functors of completed messages; returns the numbers that had none. */
    method Complete(numbers: seq<nat>) returns (missing: seq<nat>)
      modifies this`functors
      ensures functors == old(functors) - set m | m in numbers
      ensures AllDifferent(numbers, old(functors)) ==> missing == []
    {
      missing := [];
      var i := 0;
      while i < |numbers|
        invariant 0 <= i <= |numbers|
        invariant functors == old(functors) - set m | m in numbers[..i]
        invariant AllDifferent(numbers, old(functors)) ==> missing == []
      {
        assert numbers[..i + 1] == numbers[..i] + [numbers[i]];
        if numbers[i] !in functors {
          missing := missing + [numbers[i]];
        } else {
          functors := functors - {numbers[i]};
        }
        i := i + 1;
      }
      assert numbers[..i] == numbers;
    }

    /** ProcessRead and ProcessWrite, which end most handlers. */
    method ReadAndWrite(now: int, failures: nat) returns (data: seq<Byte>, sent: seq<DataPacket>)
      requires Valid()
      modifies this`waitingWrite, this`readRoom, this`readTransferred, this`outgoing, this`incoming,
        sender, sender.unacked, receiver.unread, timer
      ensures Valid()
      ensures incoming == ReadOut(old(incoming), old(readRoom)).(timer := timer.expiry)
      ensures incoming.delivered == old(incoming).delivered + data
      ensures var o := SendingEnds.ProcessWrite(old(outgoing), now, failures);
        outgoing == o.end && PacketSet(sent) == PacketsOf(o.flights)
    {
      var readDone;
      data, readDone := ProcessRead();
      sent := ProcessWrite(now, failures);
    }

    // ---- What the sender does in a handler ----

    /** Sender::HandleAck, and the functors of the messages that it completes. */
    method SenderHandlesAck(packet: AckPacket, now: int, failures: nat)
      returns (response: Uint32, missing: seq<nat>, sent: seq<DataPacket>)
      requires Valid()
      requires forall r :: r in packet.ranges ==> r.last < 0xffff_ffff
      modifies this`functors, this`outgoing, this`incoming, sender, sender.unacked, timer,
        control`sendWindowSize, control`sendDataSize, control`lostPackets, control`corruptedPackets
      ensures Valid() && incoming == old(incoming).(timer := timer.expiry)
      ensures response == packet.ackSequenceNumber
      ensures AllDifferent(Acknowledge(old(outgoing).state, packet).1, old(functors)) ==> missing == []
      ensures var o := SentAfterAck(old(outgoing), packet, now, failures);
        outgoing == o.end && PacketSet(sent) == PacketsOf(o.flights)
    {
      var called;
      response, called, sent := sender.HandleAck(packet, now, failures);
      missing := Complete(called);
      AckSent(outgoing, packet, now, failures, sender.State(), sent);
      outgoing := SentAfterAck(outgoing, packet, now, failures).end;
      incoming := incoming.(timer := timer.expiry);
    }

    method SenderHandlesNegativeAck(packet: NegativeAckPacket, now: int, failures: nat) returns (sent: seq<DataPacket>)
      requires Valid()
      modifies this`outgoing, this`incoming, sender, sender.unacked, timer, control`corruptedPackets
      ensures Valid() && incoming == old(incoming).(timer := timer.expiry)
      ensures var o := SendingEnds.HandleNegativeAck(old(outgoing), packet, now, failures);
        outgoing == o.end && PacketSet(sent) == PacketsOf(o.flights)
    {
      sent := sender.HandleNegativeAck(packet, now, failures);
      FlightsAreSent(outgoing.(state := MarkListed(outgoing.state, packet)), now, failures);
      outgoing := SendingEnds.HandleNegativeAck(outgoing, packet, now, failures).end;
      incoming := incoming.(timer := timer.expiry);
    }

    /** Sender::HandleTick. */
    method SenderTicks(now: int, failures: nat) returns (sent: seq<DataPacket>)
      requires Valid()
      modifies this`outgoing, this`incoming, sender, sender.unacked, timer, control`lostPackets
      ensures Valid() && incoming == old(incoming).(timer := timer.expiry)
      ensures var o := Transmitted(old(outgoing).(state := CheckTimeout(old(outgoing).state, now)), now, failures);
        outgoing == o.end && PacketSet(sent) == PacketsOf(o.flights)
    {
      sent := sender.HandleTick(now, failures);
      ghost var e := outgoing.(state := CheckTimeout(outgoing.state, now));
      FlightsAreSent(e, now, failures);
      outgoing := Transmitted(e, now, failures).end;
      incoming := incoming.(timer := timer.expiry);
    }

    // ---- What the receiver does in a handler ----

    /** Receiver::HandleData for the packet with the given index of the peer's stream. */
    method ReceiverHandlesData(packet: DataPacket, ghost index: nat, now: int, statistics: LinkStatistics)
      returns (ack: Option<AckPacket>)
      requires Valid()
      modifies this`outgoing, this`incoming, receiver, receiver.unread, receiver.acks, timer,
        control`arrivals, control`receiveWindowSize
      ensures Valid() && outgoing == old(outgoing).(timer := timer.expiry)
      ensures var r := ReceivingEnds.HandleData(old(incoming), DataFlight(index, packet), now, statistics);
        incoming == r.end && Acknowledges(r, |old(incoming).records|, ack)
    {
      ack := receiver.HandleData(packet, now, statistics);
      ghost var f := DataFlight(index, packet);
      DataHandled(incoming, f, now, statistics, receiver.State(), ack);
      incoming := ReceivingEnds.HandleData(incoming, f, now, statistics).end;
      outgoing := outgoing.(timer := timer.expiry);
    }

    /** Receiver::HandleTick. */
    method ReceiverTicks(now: int, statistics: LinkStatistics) returns (ack: Option<AckPacket>)
      requires Valid()
      modifies this`outgoing, this`incoming, receiver.acks, timer, control`receiveWindowSize
      ensures Valid() && outgoing == old(outgoing).(timer := timer.expiry)
      ensures var r := Ticked(old(incoming), now, statistics);
        incoming == r.end && Acknowledges(r, |old(incoming).records|, ack)
    {
      ack := receiver.HandleTick(now, statistics);
      incoming := Ticked(incoming, now, statistics).end;
      outgoing := outgoing.(timer := timer.expiry);
    }

    /** Receiver::HandleAckOfAck. */
    method ReceiverHandlesAckOfAck(n: SeqNum)
      requires Valid()
      modifies this`incoming, receiver, receiver.acks
      ensures Valid() && outgoing == old(outgoing) && incoming == AckOfAck(old(incoming), n)
    {
      receiver.HandleAckOfAck(n);
      AckOfAckHandled(incoming, n);
      incoming := AckOfAck(incoming, n);
    }

    // ---- The handlers ----

    /** An ack completes messages, makes room and is answered; without a connection it is ignored. */
    method HandleAck(packet: AckPacket, now: int, failures: nat, failures': nat)
      returns (response: Option<Uint32>, missing: seq<nat>, sent: seq<DataPacket>, data: seq<Byte>)
      requires Valid()
      requires forall r :: r in packet.ranges ==> r.last < 0xffff_ffff
      modifies this`waitingWrite, this`functors, this`readRoom, this`readTransferred, this`outgoing, this`incoming,
        sender, sender.unacked, receiver.unread, timer,
        control`sendWindowSize, control`sendDataSize, control`lostPackets, control`corruptedPackets
      ensures Valid()
      ensures session.state != SessionSpec.Connected ==>
        response == None && sent == [] && data == [] && outgoing == old(outgoing) && incoming == old(incoming)
      ensures session.state == SessionSpec.Connected ==>
        var o := SendingEnds.HandleAck(old(outgoing), packet, now, failures, failures');
        && response == Some(packet.ackSequenceNumber)
        && outgoing == o.end && PacketSet(sent) == PacketsOf(o.flights)
        && incoming == ReadOut(old(incoming), old(readRoom)).(timer := timer.expiry)
        && incoming.delivered == old(incoming).delivered + data
      ensures old(timer.expiry).Some? ==> timer.expiry.Some?
      ensures forall base :: CoreValid(old(outgoing), base, now) ==> missing == []
    {
      response, missing, sent, data := None, [], [], [];
      if session.state == SessionSpec.Connected {
        ghost var o := SentAfterAck(outgoing, packet, now, failures);
        NoneMissing(outgoing, packet, now);
        var packets, more, n;
        n, missing, packets := SenderHandlesAck(packet, now, failures);
        response := Some(n);
        data, more := ReadAndWrite(now, failures');
        sent := packets + more;
        PacketsOfBoth(SendingEnds.ProcessWrite(o.end, now, failures').flights, o.flights, more, packets);
        WriteKeepsTimer(o.end, now, failures');
        AckKeepsTimer(old(outgoing), packet, now, failures);
      }
    }

    /** Data goes to its slot; without a connection it is ignored. */
    method HandleData(packet: DataPacket, ghost index: nat, now: int, failures: nat, statistics: LinkStatistics)
      returns (ack: Option<AckPacket>, data: seq<Byte>, sent: seq<DataPacket>)
      requires Valid()
      modifies this`waitingWrite, this`readRoom, this`readTransferred, this`outgoing, this`incoming,
        sender, sender.unacked, receiver, receiver.unread, receiver.acks, timer,
        control`arrivals, control`receiveWindowSize
      ensures Valid()
      ensures session.state != SessionSpec.Connected ==>
        ack == None && sent == [] && data == [] && outgoing == old(outgoing) && incoming == old(incoming)
      ensures session.state == SessionSpec.Connected ==>
        var r := ReceivingEnds.HandleData(old(incoming), DataFlight(index, packet), now, statistics);
        var o := SendingEnds.ProcessWrite(old(outgoing).(timer := r.end.timer), now, failures);
        && Acknowledges(r, |old(incoming).records|, ack)
        && incoming == ReadOut(r.end, old(readRoom)).(timer := timer.expiry)
        && incoming.delivered == old(incoming).delivered + data
        && outgoing == o.end && PacketSet(sent) == PacketsOf(o.flights)
        && timer.expiry.Some?
    {
      ack, data, sent := None, [], [];
      if session.state == SessionSpec.Connected {
        ack := ReceiverHandlesData(packet, index, now, statistics);
        WriteKeepsTimer(outgoing, now, failures);
        data, sent := ReadAndWrite(now, failures);
      }
    }

    method HandleAckOfAck(n: SeqNum, now: int, failures: nat) returns (data: seq<Byte>, sent: seq<DataPacket>)
      requires Valid()
      modifies this`waitingWrite, this`readRoom, this`readTransferred, this`outgoing, this`incoming,
        sender, sender.unacked, receiver, receiver.unread, receiver.acks, timer
      ensures Valid()
      ensures session.state != SessionSpec.Connected ==>
        sent == [] && data == [] && outgoing == old(outgoing) && incoming == old(incoming)
      ensures session.state == SessionSpec.Connected ==>
        var o := SendingEnds.ProcessWrite(old(outgoing), now, failures);
        && incoming == ReadOut(AckOfAck(old(incoming), n), old(readRoom)).(timer := timer.expiry)
        && incoming.delivered == old(incoming).delivered + data
        && outgoing == o.end && PacketSet(sent) == PacketsOf(o.flights)
      ensures old(timer.expiry).Some? ==> timer.expiry.Some?
    {
      data, sent := [], [];
      if session.state == SessionSpec.Connected {
        ReceiverHandlesAckOfAck(n);
        WriteKeepsTimer(outgoing, now, failures);
        data, sent := ReadAndWrite(now, failures);
      }
    }

    method HandleNegativeAck(packet: NegativeAckPacket, now: int, failures: nat) returns (sent: seq<DataPacket>)
      requires Valid()
      modifies this`outgoing, this`incoming, sender, sender.unacked, timer, control`corruptedPackets
      ensures Valid() && incoming == old(incoming).(timer := timer.expiry)
      ensures session.state != SessionSpec.Connected ==> sent == [] && outgoing == old(outgoing)
      ensures session.state == SessionSpec.Connected ==>
        var o := SendingEnds.HandleNegativeAck(old(outgoing), packet, now, failures);
        outgoing == o.end && PacketSet(sent) == PacketsOf(o.flights) && timer.expiry.Some?
    {
      sent := [];
      if session.state == SessionSpec.Connected {
        sent := SenderHandlesNegativeAck(packet, now, failures);
      }
    }

    /** TickOp: a timer that has expired is reset and the socket ticks; a tick that comes too early or finds
        the session closed does nothing. */
    method Tick(now: int, failures: nat, failures': nat, statistics: LinkStatistics)
      returns (handshakes: seq<HandshakePacket>, sent: seq<DataPacket>, ack: Option<AckPacket>, data: seq<Byte>)
      requires Valid()
      modifies this`waitingWrite, this`readRoom, this`readTransferred, this`outgoing, this`incoming, session`retries,
        sender, sender.unacked, receiver.unread, receiver.acks, timer, control`lostPackets, control`receiveWindowSize
      ensures Valid()
      ensures session.state == Closed || !IsExpired(old(timer.expiry), now) ==>
        && session.View() == old(session.View()) && handshakes == [] && sent == [] && ack == None && data == []
        && outgoing == old(outgoing) && incoming == old(incoming)
      ensures session.state != Closed && IsExpired(old(timer.expiry), now) ==>
        Outcome(session.View(), handshakes) == SessionSpec.HandleTick(old(session.View()))
      ensures session.state != Closed && session.state != SessionSpec.Connected && IsExpired(old(timer.expiry), now) ==>
        && sent == [] && ack == None && data == [] && timer.expiry == HandshakeDeadline(handshakes, now)
        && outgoing == old(outgoing).(timer := timer.expiry) && incoming == old(incoming).(timer := timer.expiry)
      ensures session.state == SessionSpec.Connected && IsExpired(old(timer.expiry), now) ==>
        var o := SendingEnds.HandleTick(old(outgoing), now, failures, failures');
        var r := AckAdded(old(incoming), now, statistics);
        && outgoing == o.end.(timer := timer.expiry) && PacketSet(sent) == PacketsOf(o.flights)
        && incoming == ReadOut(r.end, old(readRoom)).(timer := timer.expiry)
        && incoming.delivered == old(incoming).delivered + data
        && Acknowledges(r, |old(incoming).records|, ack)
        && timer.expiry == Soonest(Soonest(o.end.timer, AckDeadline(r.end.state.acks)), HandshakeDeadline(handshakes, now))
        && timer.expiry.Some?
    {
      handshakes, sent, ack, data := [], [], None, [];
      if session.state != Closed && timer.Expired(now) {
        ghost var e, r := outgoing, incoming;
        handshakes := SessionTicks(now);
        if session.state == SessionSpec.Connected {
          sent, ack, data := HandleTick(now, failures, failures', statistics, e, r, HandshakeDeadline(handshakes, now));
        }
      }
    }

    /** TickOp's reset and Session::HandleTick. */
    method SessionTicks(now: int) returns (handshakes: seq<HandshakePacket>)
      requires Valid()
      modifies this`outgoing, this`incoming, session`retries, timer
      ensures Valid() && timer.expiry == HandshakeDeadline(handshakes, now)
      ensures Outcome(session.View(), handshakes) == SessionSpec.HandleTick(old(session.View()))
      ensures outgoing == old(outgoing).(timer := timer.expiry) && incoming == old(incoming).(timer := timer.expiry)
    {
      timer.Reset();
      handshakes := session.HandleTick(now);
      outgoing, incoming := outgoing.(timer := timer.expiry), incoming.(timer := timer.expiry);
    }

    /** Socket::HandleTick for a connected session, after its session has ticked and asked for `deadline`. */
    method HandleTick(now: int, failures: nat, failures': nat, statistics: LinkStatistics,
      ghost e: SendingEnd, ghost r: ReceivingEnd, ghost deadline: Option<int>)
      returns (sent: seq<DataPacket>, ack: Option<AckPacket>, data: seq<Byte>)
      requires Valid() && outgoing == e.(timer := deadline) && incoming == r.(timer := deadline)
      modifies this`waitingWrite, this`readRoom, this`readTransferred, this`outgoing, this`incoming,
        sender, sender.unacked, receiver.unread, receiver.acks, timer, control`lostPackets, control`receiveWindowSize
      ensures Valid()
      ensures e.state.Valid() && r.state.unread.Valid()
      ensures var o := SendingEnds.HandleTick(e, now, failures, failures');
        var reply := AckAdded(r, now, statistics);
        && outgoing == o.end.(timer := timer.expiry) && PacketSet(sent) == PacketsOf(o.flights)
        && incoming == ReadOut(reply.end, old(readRoom)).(timer := timer.expiry) && incoming.delivered == r.delivered + data
        && Acknowledges(reply, |r.records|, ack)
        && timer.expiry == Soonest(Soonest(o.end.timer, AckDeadline(reply.end.state.acks)), deadline) && timer.expiry.Some?
    {
      sent, ack, data := TickInTurn(now, failures, failures', statistics);
      TickTimes(e, r, deadline, now, failures, failures', statistics, old(readRoom));
    }

    /** The sender, the receiver, the read and the write take their turns. */
    method TickInTurn(now: int, failures: nat, failures': nat, statistics: LinkStatistics)
      returns (sent: seq<DataPacket>, ack: Option<AckPacket>, data: seq<Byte>)
      requires Valid()
      modifies this`waitingWrite, this`readRoom, this`readTransferred, this`outgoing, this`incoming,
        sender, sender.unacked, receiver.unread, receiver.acks, timer, control`lostPackets, control`receiveWindowSize
      ensures Valid()
      ensures var t := TickParts(old(outgoing), old(incoming), now, failures, failures', statistics, old(readRoom));
        && outgoing == t.sending && PacketSet(sent) == PacketsOf(t.flights)
        && incoming == t.receiving && incoming.delivered == old(incoming).delivered + data
        && Acknowledges(AckAdded(old(incoming), now, statistics), |old(incoming).records|, ack)
    {
      ghost var o := Transmitted(outgoing.(state := CheckTimeout(outgoing.state, now)), now, failures);
      var packets := SenderTicks(now, failures);
      ack := ReceiverTicks(now, statistics);
      ghost var e1 := outgoing;
      var more;
      data, more := ReadAndWrite(now, failures');
      sent := packets + more;
      PacketsOfBoth(SendingEnds.ProcessWrite(e1, now, failures').flights, o.flights, more, packets);
    }

    /** On the transition to connected the receive window is put at the peer's first number. */
    method HandleHandshake(p: HandshakePacket, now: int) returns (handshakes: seq<HandshakePacket>)
      requires Valid()
      requires Joins(session.View(), p) ==> p.initialSequenceNumber <= MAX_SEQUENCE_NUMBER
      modifies this`readTransferred, this`outgoing, this`incoming, session, receiver.unread, timer, control`allowedLost
      ensures Valid()
      ensures var o := SessionSpec.HandleHandshake(old(session.View()), p);
        && handshakes == o.sent && timer.expiry == Soonest(old(timer.expiry), HandshakeDeadline(handshakes, now))
        && session.View() ==
             if o.session.state == Closed || Drops(old(session.View()), o.session)
             then o.session.(state := Closed, peerSocket := 0) else o.session
      ensures old(session.state) != SessionSpec.Connected && session.state == SessionSpec.Connected ==>
        && timer.expiry.Some? && session.receivingNumber <= MAX_SEQUENCE_NUMBER
        && incoming == old(incoming).(
             timer := timer.expiry,
             state := old(incoming).state.(unread := Window(session.receivingNumber, [], DEFAULT_WINDOW_SIZE)))
        && outgoing == old(outgoing).(timer := timer.expiry, destination := session.peerSocket,
                                      state := WithPeerType(old(outgoing).state, session.peerConnectionType))
      ensures old(session.state) == SessionSpec.Connected || session.state != SessionSpec.Connected ==>
        && incoming == old(incoming).(timer := timer.expiry)
        && outgoing == old(outgoing).(timer := timer.expiry, destination := session.peerSocket)
    {
      var wasConnected := session.state == SessionSpec.Connected;
      handshakes := session.HandleHandshake(p, now);
      outgoing, incoming := outgoing.(timer := timer.expiry, destination := session.peerSocket), incoming.(timer := timer.expiry);
      if session.state == Closed {
        Close();
      } else if !wasConnected && session.state == SessionSpec.Connected {
        if session.mode == BootstrapAndDrop {
          Close();
        } else {
          ConnectingSends(old(session.View()), p);
          StartStreams();
        }
      }
    }

    /** What a new connection sets up for its two streams. */
    method StartStreams()
      requires Valid() && session.receivingNumber <= MAX_SEQUENCE_NUMBER
      modifies this`outgoing, this`incoming, receiver.unread, control`allowedLost
      ensures Valid()
      ensures incoming == old(incoming).(
        state := old(incoming).state.(unread := Window(session.receivingNumber, [], DEFAULT_WINDOW_SIZE)))
      ensures outgoing == old(outgoing).(state := WithPeerType(old(outgoing).state, session.peerConnectionType))
    {
      control.SetPeerConnectionType(session.peerConnectionType, CONNECTION_TYPE);
      receiver.Reset(session.receivingNumber);
      outgoing := outgoing.(state := sender.State());
      incoming := incoming.(state := receiver.State());
    }

    method Close()
      modifies this`readTransferred, this`outgoing, session`state, session`peerSocket
      ensures session.View() == old(session.View()).(state := Closed, peerSocket := 0)
      ensures outgoing == old(outgoing).(destination := 0)
    {
      session.Close();
      session.peerSocket := 0;
      outgoing := outgoing.(destination := 0);
      readTransferred := 0;
    }
  }

  /** The acks that a reply puts into the network are those that the receiver hands to it. */
  ghost predicate Acknowledges(reply: Reply, index: nat, ack: Option<AckPacket>) {
    reply.acks == if ack.Some? then {AckFlight(index, ack.value)} else {}
  }

  /** Whether a handshake packet connects a session that is to stay connected. */
  predicate Joins(s: SessionState, p: HandshakePacket) {
    var s' := SessionSpec.HandleHandshake(s, p).session;
    s.state != SessionSpec.Connected && s'.state == SessionSpec.Connected && s'.mode != BootstrapAndDrop
  }

  function WithPeerType(s: SenderState, peerType: nat): SenderState {
    s.(control := s.control.(allowedLost := AllowedLost(peerType, CONNECTION_TYPE, s.control.allowedLost)))
  }

  /** The tick that the session asks for when it sends handshake packets. */
  function HandshakeDeadline(handshakes: seq<HandshakePacket>, now: int): Option<int> {
    if handshakes == [] then None else Some(now + RETRY_INTERVAL)
  }

  /** A session that connects to stay answers at once, so its socket's timer is armed. */
  lemma ConnectingSends(s: SessionState, p: HandshakePacket)
    requires var o := SessionSpec.HandleHandshake(s, p);
      s.state != SessionSpec.Connected && o.session.state == SessionSpec.Connected && o.session.mode != BootstrapAndDrop
    ensures SessionSpec.HandleHandshake(s, p).sent != []
    ensures SessionSpec.HandleHandshake(s, p).session.receivingNumber == p.initialSequenceNumber
  {
  }

  datatype TickResult = TickResult(sending: SendingEnd, flights: set<DataFlight>, receiving: ReceivingEnd)

  /** The two ends after a tick in which the sender, the receiver, the read and the write take their turns. */
  function TickParts(e: SendingEnd, r: ReceivingEnd, now: int, failures: nat, failures': nat, statistics: LinkStatistics, room: nat)
    : TickResult
    requires e.state.Valid() && r.state.unread.Valid()
  {
    var sent := Transmitted(e.(state := CheckTimeout(e.state, now)), now, failures);
    var reply := Ticked(r.(timer := sent.end.timer), now, statistics);
    var o := SendingEnds.ProcessWrite(sent.end.(timer := reply.end.timer), now, failures');
    TickResult(o.end, o.flights + sent.flights, ReadOut(reply.end, room).(timer := o.end.timer))
  }

  /** Moving the timer before a write moves it after the write. */
  lemma WriteTimes(e: SendingEnd, timer: Option<int>, now: int, failures: nat)
    requires e.state.Valid()
    ensures var o, o' := SendingEnds.ProcessWrite(e, now, failures), SendingEnds.ProcessWrite(e.(timer := Soonest(e.timer, timer)), now, failures);
      o'.end == o.end.(timer := Soonest(o.end.timer, timer)) && o'.flights == o.flights
  {
  }

  /** The three deadlines of a tick in either order. */
  lemma SoonestOfThree(a: Option<int>, b: Option<int>, c: Option<int>)
    ensures Soonest(Soonest(a, c), b) == Soonest(a, Soonest(b, c)) == Soonest(Soonest(a, b), c)
  {
  }

  /** In whatever order they ask, the soonest tick wins; so a tick does to each end what it does in a stream. */
  lemma TickTimes(e: SendingEnd, r: ReceivingEnd, deadline: Option<int>, now: int, failures: nat, failures': nat,
    statistics: LinkStatistics, room: nat)
    requires e.state.Valid() && r.state.unread.Valid()
    ensures var t := TickParts(e.(timer := deadline), r.(timer := deadline), now, failures, failures', statistics, room);
      var o := SendingEnds.HandleTick(e, now, failures, failures');
      var reply := AckAdded(r, now, statistics);
      && t.sending.timer == Soonest(Soonest(o.end.timer, AckDeadline(reply.end.state.acks)), deadline)
      && t.sending == o.end.(timer := t.sending.timer) && t.flights == o.flights
      && t.receiving == ReadOut(reply.end, room).(timer := t.sending.timer) && t.sending.timer.Some?
  {
    var sent := Transmitted(e.(state := CheckTimeout(e.state, now), timer := None), now, failures);
    var later := AckDeadline(AckAdded(r, now, statistics).end.state.acks);
    SenderTickTimes(e, deadline, now, failures);
    ReceiverTickTimes(r, Soonest(sent.end.timer, deadline), now, statistics, room);
    SoonestOfThree(sent.end.timer, later, deadline);
    WriteTimes(sent.end, Soonest(later, deadline), now, failures');
    WriteKeepsTimer(sent.end, now, failures');
    SoonestOfThree(SendingEnds.ProcessWrite(sent.end, now, failures').end.timer, later, deadline);
  }

  lemma SenderTickTimes(e: SendingEnd, deadline: Option<int>, now: int, failures: nat)
    ensures var o := Transmitted(e.(state := CheckTimeout(e.state, now), timer := None), now, failures);
      var o' := Transmitted(e.(timer := deadline).(state := CheckTimeout(e.state, now)), now, failures);
      o'.end == o.end.(timer := Soonest(o.end.timer, deadline)) && o'.flights == o.flights && o.end.timer.Some?
  {
  }

  lemma ReceiverTickTimes(r: ReceivingEnd, timer: Option<int>, now: int, statistics: LinkStatistics, room: nat)
    requires r.state.unread.Valid()
    ensures var reply := AckAdded(r, now, statistics); var t := Ticked(r.(timer := timer), now, statistics);
      && t.end == reply.end.(timer := Soonest(timer, AckDeadline(reply.end.state.acks)))
      && ReadOut(t.end, room) == ReadOut(reply.end, room).(timer := t.end.timer)
  {
  }

  lemma WriteKeepsTimer(e: SendingEnd, now: int, failures: nat)
    requires e.state.Valid()
    ensures e.timer.Some? ==> SendingEnds.ProcessWrite(e, now, failures).end.timer.Some?
  {
  }

  lemma AckKeepsTimer(e: SendingEnd, packet: AckPacket, now: int, failures: nat)
    requires e.state.Valid()
    ensures e.timer.Some? ==> SentAfterAck(e, packet, now, failures).end.timer.Some?
  {
  }

  /** What Sender::AddData does with the waiting write, as a step of the sending end. */
  lemma DataAdded(e: SendingEnd, now: int, failures: nat, length: nat, state: SenderState, packets: seq<DataPacket>)
    requires e.state.Valid() && e.waiting != [] && length == Accepted(e.state, e.waiting, e.message, e.destination)
    requires Sent(state, packets) == AddData(e.state, e.waiting, e.message, e.destination, now, failures)
    ensures var o := SendingEnds.ProcessWrite(e, now, failures);
      && o.end.state == state && o.end.timer == Earlier(e.timer, Sent(state, packets).NextTick(now))
      && o.end.waiting == e.waiting[length..]
      && o.end.destination == e.destination && o.end.message == e.message && o.end.functors == e.functors
      && PacketSet(packets) == PacketsOf(o.flights)
  {
    FlightsAreSent(Enqueued(e), now, failures);
  }

  /** What Receiver::ReadData does, as a step of the receiving end. */
  lemma DataRead(e: ReceivingEnd, size: nat)
    ensures var e' := ReadOut(e, size); var r := ReadData(e.state, size);
      && e'.state == r.0 && e'.delivered == e.delivered + r.1 && |r.1| <= size
      && e' == e.(state := e'.state, consumed := e'.consumed, delivered := e'.delivered) && e'.state.acks == e.state.acks
      && (size == 0 ==> e' == e)
  {
    ReadConserves(e.state.unread, [], size);
  }

  /** What Receiver::HandleAckOfAck does, as a step of the receiving end. */
  lemma AckOfAckHandled(e: ReceivingEnd, n: SeqNum)
    requires e.ackLow + |e.state.acks.items| <= |e.records|
    ensures var e' := AckOfAck(e, n);
      && e'.state == ReceiverSpec.HandleAckOfAck(e.state, n) && e'.timer == e.timer
      && e'.ackLow + |e'.state.acks.items| <= |e'.records|
  {
  }

  /** The messages that an ack completes all have their functors. */
  lemma NoneMissing(e: SendingEnd, packet: AckPacket, now: int)
    requires e.state.Valid()
    ensures forall base :: CoreValid(e, base, now) ==> AllDifferent(Acknowledge(e.state, packet).1, e.functors)
  {
    forall base | CoreValid(e, base, now) ensures AllDifferent(Acknowledge(e.state, packet).1, e.functors) {
      AcknowledgedMessages(e, base, now, packet);
    }
  }

  /** What Sender::HandleAck does, as a step of the sending end. */
  lemma AckSent(e: SendingEnd, packet: AckPacket, now: int, failures: nat, state: SenderState, sent: seq<DataPacket>)
    requires e.state.Valid() && Sent(state, sent) == SenderSpec.HandleAck(e.state, packet, now, failures)
    ensures var o := SentAfterAck(e, packet, now, failures);
      && o.end.state == state && PacketSet(sent) == PacketsOf(o.flights)
      && o.end.timer ==
           (if |state.window.items| < |e.state.window.items| then Earlier(e.timer, Sent(state, sent).NextTick(now)) else e.timer)
      && o.end.waiting == e.waiting && o.end.destination == e.destination && o.end.message == e.message
      && o.end.functors == e.functors - set m | m in Acknowledge(e.state, packet).1
  {
    FlightsAreSent(Acknowledged(e, packet), now, failures);
  }

  /** What Receiver::HandleData does, as a step of the receiving end. */
  lemma DataHandled(e: ReceivingEnd, f: DataFlight, now: int, statistics: LinkStatistics, state: ReceiverState, ack: Option<AckPacket>)
    requires e.state.Valid() && e.ackLow + |e.state.acks.items| <= |e.records|
    requires Received(state, ack) == ReceiverSpec.HandleData(e.state, f.packet, now, statistics)
    ensures var r := ReceivingEnds.HandleData(e, f, now, statistics);
      && r.end.state == state && Acknowledges(r, |e.records|, ack)
      && r.end.timer == Rearmed(if AcksAtOnce(state) then Soonest(e.timer, AckDeadline(state.acks)) else e.timer, now)
      && r.end.ackLow + |state.acks.items| <= |r.end.records| && r.end.delivered == e.delivered
  {
  }
}
