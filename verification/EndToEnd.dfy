/** The parts together: what the handshake hands to the stream, and what the wire does to packets. */
module EndToEnd {
  import opened SequenceNumbers
  import opened SlidingWindows
  import opened Packets
  import opened Runs
  import opened CongestionControls
  import opened AckRanges
  import opened TickTimers
  import opened SenderSpec
  import opened ReceiverSpec
  import opened SendingEnds
  import opened ReceivingEnds
  import opened Streams
  import StreamTheorems
  import SessionSpec
  import HandshakeAgreement
  import opened CodecSpec

  // ---- From the handshake to the stream ----

  /** What can happen to a sender whose peer is not connected yet and ignores every packet. */
  predicate BySender(event: Event) {
    event.Write? || event.ContinueWrite? || event.Tick? || event.TickEarlier? || event.Wait? || event.Lose?
  }

  /** What can happen to a receiver whose peer is not connected yet. */
  predicate ByReceiver(event: Event) {
    event.Read? || event.ReceiverTick? || event.ReceiverTickEarlier? || event.Wait? || event.Lose?
  }

  ghost predicate OnlyBySender(events: seq<Event>) { forall i :: 0 <= i < |events| ==> BySender(events[i]) }

  ghost predicate OnlyByReceiver(events: seq<Event>) { forall i :: 0 <= i < |events| ==> ByReceiver(events[i]) }

  lemma SenderStepAlone(s: Stream, r: ReceivingEnd, event: Event)
    requires StreamTheorems.Step(s, event).Some? && BySender(event) && Inv(s.(receiver := r))
    ensures StreamTheorems.Step(s.(receiver := r), event) == Some(StreamTheorems.Step(s, event).value.(receiver := r))
    ensures StreamTheorems.Step(s, event).value.receiver == s.receiver
  {
  }

  /** A run of the sender is the same whatever receiving end is at the other side. */
  lemma {:induction false} SenderRunsAlone(s: Stream, r: ReceivingEnd, events: seq<Event>)
    requires Inv(s.(receiver := r)) && StreamTheorems.CanPlay(s, events) && OnlyBySender(events)
    ensures Run(StreamTheorems.Step, s.(receiver := r), events) == Some(StreamTheorems.Play(s, events).(receiver := r))
    decreases |events|
  {
    if events != [] {
      SenderStepAlone(s, r, events[0]);
      StepKeepsInv(s.(receiver := r), events[0]);
      assert forall i :: 0 <= i < |events[1..]| ==> events[1..][i] == events[i + 1];
      SenderRunsAlone(StreamTheorems.Step(s, events[0]).value, r, events[1..]);
    }
  }

  lemma ReachableAlone(s: Stream, r: ReceivingEnd, events: seq<Event>)
    requires Init(s.(receiver := r)) && StreamTheorems.CanPlay(s, events) && OnlyBySender(events)
    ensures StreamTheorems.Reachable(StreamTheorems.Play(s, events).(receiver := r))
  {
    var s' := s.(receiver := r);
    InitInv(s');
    SenderRunsAlone(s, r, events);
    assert StreamTheorems.CanPlay(s', events) && StreamTheorems.Play(s', events) == StreamTheorems.Play(s, events).(receiver := r);
  }

  /** A receiving end after its session has connected and its socket has put the window at `expected`. */
  predicate SetUp(r0: ReceivingEnd, r: ReceivingEnd, expected: SeqNum) {
    && r.timer.Some?
    && r == r0.(timer := r.timer, state := r0.state.(unread := Window(expected, [], DEFAULT_WINDOW_SIZE)))
  }

  /** When a session connects, the receive window that its socket sets up is the one that the peer's sender
      started with, whether or not the peer has connected first and has been sending ever since: the
      stream between them is one that a stream which has just begun can become. */
  lemma HandshakeStartsStream(start: HandshakeAgreement.Pair, moves: seq<HandshakeAgreement.Move>,
    first: SeqNum, expected: SeqNum, before: SeqNum, firstAck: SeqNum, e: SendingEnd, r0: ReceivingEnd, r: ReceivingEnd,
    now: int, events: seq<Event>)
    requires HandshakeAgreement.Init(start) && HandshakeAgreement.CanPlay(start, moves)
    requires var p := HandshakeAgreement.Play(start, moves);
      && p.me.session.state == SessionSpec.Connected
      && first == p.peer.session.sendingNumber && expected == p.me.session.receivingNumber
    requires NothingSent(e, first) && e.timer.Some? && NothingReceived(r0, before, firstAck) && SetUp(r0, r, expected)
    requires var s := Stream(first, firstAck, e, r0, Network({}, {}, {}), now);
      StreamTheorems.CanPlay(s, events) && OnlyBySender(events)
    ensures var s := Stream(first, firstAck, e, r0, Network({}, {}, {}), now);
      StreamTheorems.Reachable(StreamTheorems.Play(s, events).(receiver := r))
  {
    HandshakeAgreement.PlayKeepsInv(start, moves);
    ReachableAlone(Stream(first, firstAck, e, r0, Network({}, {}, {}), now), r, events);
  }

  // ---- A receiver that is connected first ----

  /** A receiver whose peer is not connected yet has nothing to acknowledge or to read. */
  lemma ReceiverStaysEmpty(s: Stream, event: Event, first: SeqNum, firstAck: SeqNum)
    requires StreamTheorems.Step(s, event).Some? && ByReceiver(event) && NothingReceived(s.receiver, first, firstAck)
    requires s.receiver.timer.Some? && s.network == Network({}, {}, {})
    ensures var s' := StreamTheorems.Step(s, event).value;
      && NothingReceived(s'.receiver, first, firstAck) && s'.receiver.timer.Some?
      && s' == s.(receiver := s'.receiver, now := s'.now)
  {
    RunsAreExact({});
  }

  lemma {:induction false} ReceiverWaits(s: Stream, events: seq<Event>, first: SeqNum, firstAck: SeqNum)
    requires StreamTheorems.CanPlay(s, events) && OnlyByReceiver(events) && NothingReceived(s.receiver, first, firstAck)
    requires s.receiver.timer.Some? && s.network == Network({}, {}, {})
    ensures var s' := StreamTheorems.Play(s, events);
      && NothingReceived(s'.receiver, first, firstAck) && s'.receiver.timer.Some?
      && s' == s.(receiver := s'.receiver, now := s'.now)
    decreases |events|
  {
    if events != [] {
      ReceiverStaysEmpty(s, events[0], first, firstAck);
      assert forall i :: 0 <= i < |events[1..]| ==> events[1..][i] == events[i + 1];
      ReceiverWaits(StreamTheorems.Step(s, events[0]).value, events[1..], first, firstAck);
    }
  }

  /** When the receiver's session has connected first and its ticks have been waiting for data ever since, the
      stream begins when the sender's session connects. */
  lemma HandshakeWaitsForSender(start: HandshakeAgreement.Pair, moves: seq<HandshakeAgreement.Move>,
    first: SeqNum, expected: SeqNum, firstAck: SeqNum, e0: SendingEnd, e: SendingEnd, r: ReceivingEnd,
    now: int, events: seq<Event>)
    requires HandshakeAgreement.Init(start) && HandshakeAgreement.CanPlay(start, moves)
    requires var p := HandshakeAgreement.Play(start, moves);
      && p.me.session.state == SessionSpec.Connected
      && first == p.peer.session.sendingNumber && expected == p.me.session.receivingNumber
    requires NothingReceived(r, expected, firstAck) && r.timer.Some? && NothingSent(e, first) && e.timer.Some?
    requires var s := Stream(first, firstAck, e0, r, Network({}, {}, {}), now);
      StreamTheorems.CanPlay(s, events) && OnlyByReceiver(events)
    ensures var s := Stream(first, firstAck, e0, r, Network({}, {}, {}), now);
      Init(StreamTheorems.Play(s, events).(sender := e))
  {
    HandshakeAgreement.PlayKeepsInv(start, moves);
    ReceiverWaits(Stream(first, firstAck, e0, r, Network({}, {}, {}), now), events, expected, firstAck);
  }

  // ---- Packets on the wire ----

  lemma NumsAreNumbers(base: nat, s: set<nat>)
    ensures forall n :: n in Nums(base, s) ==> n <= MAX_SEQUENCE_NUMBER
  {
  }

  lemma ListedRangesValid(packet: AckPacket, base: nat, content: set<nat>)
    requires AckLists(packet, base, content)
    ensures RangesValid(packet.ranges)
  {
    var s := Nums(base, content);
    RunsAreExact(s);
    NumsAreNumbers(base, content);
    forall i | 0 <= i < |packet.ranges| ensures packet.ranges[i].first <= packet.ranges[i].last <= MAX_SEQUENCE_NUMBER {
      assert Covers(packet.ranges, packet.ranges[i].last);
    }
  }

  /** Whatever is in flight in any run arrives as what was sent: it fits the send buffer, and decoding its
      bytes gives the same kind of packet with the same fields. */
  lemma PacketsSurviveTheWire(s: Stream)
    requires StreamTheorems.Reachable(s)
    ensures forall f :: f in s.network.acks ==>
      AckEncodable(f.packet) && |AckBytes(f.packet)| <= MAX_PACKET_SIZE && Dispatch(AckBytes(f.packet)) == Dispatched.Ack(f.packet)
    ensures forall f :: f in s.network.data && f.packet.messageNumber <= 0x1fff_ffff ==>
      |DataBytes(f.packet)| <= MAX_PACKET_SIZE && Dispatch(DataBytes(f.packet)) == Data(f.packet)
  {
    StreamTheorems.ReachableInv(s);
    StreamTheorems.PacketsFit(s);
    forall f | f in s.network.acks
      ensures AckEncodable(f.packet) && |AckBytes(f.packet)| <= MAX_PACKET_SIZE && Dispatch(AckBytes(f.packet)) == Dispatched.Ack(f.packet)
    {
      assert AckFlightValid(f, s.base, s.ackBase, s.receiver.records);
      ListedRangesValid(f.packet, s.base, s.receiver.records[f.index].Content());
      AckRoundTrip(f.packet);
      DispatchRoundTrip(Dispatched.Ack(f.packet));
    }
    forall f | f in s.network.data && f.packet.messageNumber <= 0x1fff_ffff
      ensures |DataBytes(f.packet)| <= MAX_PACKET_SIZE && Dispatch(DataBytes(f.packet)) == Data(f.packet)
    {
      DispatchRoundTrip(Data(f.packet));
    }
  }
}
