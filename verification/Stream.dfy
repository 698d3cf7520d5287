/** One direction of a connection: a sending end, a receiving end, and a network between them that may
    lose, duplicate and reorder packets but does not forge them. */
module Streams {
  import opened SequenceNumbers
  import opened SlidingWindows
  import opened Packets
  import opened CongestionControls
  import opened AckRanges
  import opened TickTimers
  import opened SenderSpec
  import opened ReceiverSpec
  import opened SendingEnds
  import opened ReceivingEnds

  /** Packets in flight. Delivery does not remove a packet, so it may be delivered again. */
  datatype Network = Network(data: set<DataFlight>, acks: set<AckFlight>, acksOfAcks: set<nat>)

  /** `base` and `ackBase` are the first data number and the first ack number, as unbounded indices. */
  datatype Stream = Stream(
    base: nat, ackBase: nat, sender: SendingEnd, receiver: ReceivingEnd, network: Network, now: int)

  datatype Event =
    | Write(data: seq<Byte>, failures: nat)
    | ContinueWrite(failures: nat)
    | Tick(failures: nat, failures': nat)
    | DeliverAck(ack: AckFlight, failures: nat, failures': nat)
    | DeliverNegativeAck(negative: NegativeAckPacket, failures: nat)
    | DeliverData(flight: DataFlight, statistics: LinkStatistics)
    | DeliverAckOfAck(index: nat)
    | Read(size: nat)
    | ReceiverTick(next: int, statistics: LinkStatistics)
    | Lose(remaining: Network)
    | Wait(time: int)
    | TickEarlier(time: int)
    | ReceiverTickEarlier(time: int)

  function SenderDoes(s: Stream, o: Output): Stream {
    s.(sender := o.end, network := s.network.(data := s.network.data + o.flights))
  }

  function ReceiverDoes(s: Stream, reply: Reply): Stream {
    s.(receiver := reply.end, network := s.network.(acks := s.network.acks + reply.acks))
  }

  /** When an event can happen. Only packets in the network are delivered, and none that is older than
      the lifetime; negative acks are unconstrained. Either end ticks when its timer has expired, and the
      other half of its socket may ask for an earlier tick at any moment. */
  ghost predicate Enabled(s: Stream, event: Event) {
    var e, r, n := s.sender, s.receiver, |s.sender.log|;
    match event
    case Write(data, _) => e.waiting == [] && data != []
    case Tick(_, _) => e.timer.Some? && e.timer.value <= s.now
    case ReceiverTick(next, _) =>
      r.timer.Some? && r.timer.value <= s.now && (next == s.now + SEND_DELAY || next == s.now + SEND_TIMEOUT)
    case DeliverAck(f, _, _) =>
      f in s.network.acks && f.index < |r.records| && Young(r.records[f.index].Content(), n)
    case DeliverData(f, _) => f in s.network.data && n < f.index + LIFETIME
    case DeliverAckOfAck(a) =>
      && a in s.network.acksOfAcks && a < |r.records| < a + LIFETIME
      && Young(r.stored - r.confirmed, n) && (r.ackLow <= a ==> Young(r.records[a].Content(), n))
    case Lose(remaining) =>
      && remaining.data <= s.network.data && remaining.acks <= s.network.acks
      && remaining.acksOfAcks <= s.network.acksOfAcks
    case Wait(time) => s.now <= time
    case _ => true
  }

  ghost predicate StatesValid(s: Stream) {
    && s.sender.state.Valid() && s.receiver.state.Valid()
    && s.receiver.ackLow + |s.receiver.state.acks.items| <= |s.receiver.records|
  }

  ghost function Apply(s: Stream, event: Event): Stream
    requires StatesValid(s)
  {
    match event
    case Write(data, failures) => SenderDoes(s, StartWrite(s.sender, data, s.now, failures))
    case ContinueWrite(failures) => SenderDoes(s, ProcessWrite(s.sender, s.now, failures))
    case Tick(failures, failures') => SenderDoes(s, SendingEnds.HandleTick(s.sender, s.now, failures, failures'))
    case DeliverAck(f, failures, failures') =>
      var s1 := SenderDoes(s, SendingEnds.HandleAck(s.sender, f.packet, s.now, failures, failures'));
      s1.(network := s1.network.(acksOfAcks := s1.network.acksOfAcks + {f.index}))
    case DeliverNegativeAck(packet, failures) =>
      SenderDoes(s, SendingEnds.HandleNegativeAck(s.sender, packet, s.now, failures))
    case DeliverData(f, statistics) => ReceiverDoes(s, ReceivingEnds.HandleData(s.receiver, f, s.now, statistics))
    case DeliverAckOfAck(a) => s.(receiver := AckOfAck(s.receiver, Wire(s.ackBase + a)))
    case Read(size) => s.(receiver := ReadOut(s.receiver, size))
    case ReceiverTick(next, statistics) => ReceiverDoes(s, ReceivingEnds.HandleTick(s.receiver, next, s.now, statistics))
    case Lose(remaining) => s.(network := remaining)
    case Wait(time) => s.(now := time)
    case TickEarlier(time) => s.(sender := s.sender.(timer := Earlier(s.sender.timer, time)))
    case ReceiverTickEarlier(time) => s.(receiver := s.receiver.(timer := Earlier(s.receiver.timer, time)))
  }

  /** The state in which both sessions have connected: the receive window starts at the first number
      that the sender will use, and the handshake has armed both timers. */
  ghost predicate Init(s: Stream) {
    && NothingSent(s.sender, Wire(s.base)) && s.sender.timer.Some?
    && NothingReceived(s.receiver, Wire(s.base), Wire(s.ackBase)) && s.receiver.timer.Some?
    && s.network == Network({}, {}, {})
  }

  // ---- The invariant ----

  /** The sender believes acknowledged only what is stored. */
  ghost predicate AckSound(e: SendingEnd, r: ReceivingEnd) {
    forall j :: Acked(e, j) ==> j in r.stored
  }

  /** What the receiver no longer lists, the sender knows to be acknowledged. */
  ghost predicate Remembered(e: SendingEnd, confirmed: set<nat>) {
    forall j :: j in confirmed ==> Acked(e, j)
  }

  ghost predicate NetworkValid(s: Stream) {
    && FlightsValid(s.network.data, s.sender.log)
    && (forall f :: f in s.network.acks ==> AckFlightValid(f, s.base, s.ackBase, s.receiver.records))
    && (forall a :: a in s.network.acksOfAcks ==>
          a < |s.receiver.records| && Remembered(s.sender, s.receiver.records[a].Content()))
  }

  ghost predicate Inv(s: Stream) {
    && CoreValid(s.sender, s.base, s.now) && Settled(s.sender)
    && ReceiverValid(s.receiver, s.base, s.ackBase, s.sender.log)
    && AckSound(s.sender, s.receiver)
    && Remembered(s.sender, s.receiver.confirmed)
    && NetworkValid(s)
    && s.receiver.timer.Some?
  }

  lemma InitInv(s: Stream)
    requires Init(s)
    ensures Inv(s)
  {
    NothingSentIsValid(s.sender, s.base, s.now);
    NothingReceivedIsValid(s.receiver, s.base, s.ackBase);
  }

  /** The windows are aligned: the receiver is never ahead of what was sent nor behind what was trimmed. */
  lemma Alignment(s: Stream)
    requires Inv(s)
    ensures s.sender.trimmed <= s.receiver.consumed + |s.receiver.state.unread.items| <= |s.sender.log|
    ensures |s.sender.log| <= s.sender.trimmed + MAXIMUM_WINDOW_SIZE
  {
    var hi: nat := s.receiver.consumed + |s.receiver.state.unread.items|;
    assert Acked(s.sender, hi) <== hi < s.sender.trimmed;
  }

  // ---- Steps of the sending end ----

  lemma RememberedGrows(e: SendingEnd, e': SendingEnd, s: set<nat>)
    requires Progress(e, e') && Remembered(e, s)
    ensures Remembered(e', s)
  {
  }

  lemma NetworkAfterSender(s: Stream, o: Output)
    requires NetworkValid(s) && Progress(s.sender, o.end) && FlightsValid(o.flights, o.end.log)
    ensures NetworkValid(SenderDoes(s, o))
  {
    FlightsOfPrefix(s.network.data, s.sender.log, o.end.log);
    forall a | a in s.network.acksOfAcks ensures Remembered(o.end, s.receiver.records[a].Content()) {
      RememberedGrows(s.sender, o.end, s.receiver.records[a].Content());
    }
  }

  lemma SenderStep(s: Stream, o: Output)
    requires Inv(s) && HandlerKeeps(s.sender, o, s.base, s.now) && AckSound(o.end, s.receiver)
    ensures Inv(SenderDoes(s, o))
  {
    NetworkAfterSender(s, o);
    RememberedGrows(s.sender, o.end, s.receiver.confirmed);
    LongerLog(s.receiver, s.base, s.ackBase, s.sender.log, o.end.log);
  }

  lemma SoundWithoutNewAcks(e: SendingEnd, e': SendingEnd, r: ReceivingEnd)
    requires AckSound(e, r) && NoNewAcks(e, e')
    ensures AckSound(e', r)
  {
  }

  lemma AckCoversIndex(w: Window<Unacked>, packet: AckPacket, base: nat, trimmed: nat, content: set<nat>, j: nat, n: nat)
    requires AckLists(packet, base, content) && Young(content, n)
    requires w.begin == Wire(base + trimmed) && trimmed <= j < n < j + LIFETIME
    ensures Covers(packet.ranges, w.NumberAt(j - trimmed)) <==> j in content
  {
    RunsAreExact(Nums(base, content));
    WireAdd(base + trimmed, j - trimmed);
    NumsMember(base, content, j, n);
  }

  lemma AckMarksListed(e: SendingEnd, packet: AckPacket, base: nat, content: set<nat>)
    requires e.state.Valid() && e.state.window.begin == Wire(base + e.trimmed)
    requires e.trimmed + |e.state.window.items| == |e.log| && |e.state.window.items| <= MAXIMUM_WINDOW_SIZE
    requires AckLists(packet, base, content) && Young(content, |e.log|)
    ensures forall j: nat :: Acked(Acknowledged(e, packet), j) <==>
      Acked(e, j) || (e.trimmed <= j < |e.log| && j in content)
  {
    AcknowledgedAcks(e, packet);
    forall j: nat | e.trimmed <= j < |e.log|
      ensures Covers(packet.ranges, e.state.window.NumberAt(j - e.trimmed)) <==> j in content
    {
      AckCoversIndex(e.state.window, packet, base, e.trimmed, content, j, |e.log|);
    }
  }

  /** An ack marks exactly the packets it was generated for: wire numbers do not confuse indices. */
  lemma AckMarksExactly(s: Stream, f: AckFlight)
    requires Inv(s) && Enabled(s, DeliverAck(f, 0, 0))
    ensures var e' := Acknowledged(s.sender, f.packet); var content := s.receiver.records[f.index].Content();
      forall j: nat :: Acked(e', j) <==> Acked(s.sender, j) || j in content
  {
    assert AckFlightValid(f, s.base, s.ackBase, s.receiver.records);
    AckMarksListed(s.sender, f.packet, s.base, s.receiver.records[f.index].Content());
  }

  lemma ContentStored(s: Stream, a: nat)
    requires Inv(s) && a < |s.receiver.records|
    ensures s.receiver.records[a].Content() <= s.receiver.stored
  {
    assert RecordValid(s.receiver.records[a], s.receiver.stored);
  }

  lemma AckStep(s: Stream, f: AckFlight, e1: SendingEnd, o: Output)
    requires Inv(s) && f.index < |s.receiver.records| && HandlerKeeps(s.sender, o, s.base, s.now)
    requires forall j: nat :: Acked(e1, j) <==> Acked(s.sender, j) || j in s.receiver.records[f.index].Content()
    requires Progress(e1, o.end) && NoNewAcks(e1, o.end)
    ensures var s1 := SenderDoes(s, o);
      Inv(s1.(network := s1.network.(acksOfAcks := s1.network.acksOfAcks + {f.index})))
  {
    ContentStored(s, f.index);
    assert AckSound(e1, s.receiver);
    SoundWithoutNewAcks(e1, o.end, s.receiver);
    SenderStep(s, o);
    RememberedGrows(e1, o.end, s.receiver.records[f.index].Content());
  }

  lemma DeliverAckStep(s: Stream, f: AckFlight, failures: nat, failures': nat)
    requires Inv(s) && Enabled(s, DeliverAck(f, failures, failures'))
    ensures Inv(Apply(s, DeliverAck(f, failures, failures')))
  {
    HandleAckKeeps(s.sender, f.packet, s.base, s.now, failures, failures');
    AckMarksExactly(s, f);
    AckStep(s, f, Acknowledged(s.sender, f.packet), SendingEnds.HandleAck(s.sender, f.packet, s.now, failures, failures'));
  }

  // ---- Steps of the receiving end ----

  lemma AckFlightsOfPrefix(flights: set<AckFlight>, base: nat, ackBase: nat, records: seq<AckRecord>, records': seq<AckRecord>)
    requires forall f :: f in flights ==> AckFlightValid(f, base, ackBase, records)
    requires |records| <= |records'| && forall a :: 0 <= a < |records| ==> records'[a] == records[a]
    ensures forall f :: f in flights ==> AckFlightValid(f, base, ackBase, records')
  {
    forall f | f in flights ensures AckFlightValid(f, base, ackBase, records') {
      assert AckFlightValid(f, base, ackBase, records);
    }
  }

  lemma NetworkAfterReceiver(s: Stream, reply: Reply)
    requires NetworkValid(s) && ReplyValid(s.receiver, reply, s.base, s.ackBase, s.sender.log)
    ensures NetworkValid(ReceiverDoes(s, reply))
  {
    AckFlightsOfPrefix(s.network.acks, s.base, s.ackBase, s.receiver.records, reply.end.records);
  }

  lemma ReceiverStep(s: Stream, reply: Reply)
    requires Inv(s) && ReplyValid(s.receiver, reply, s.base, s.ackBase, s.sender.log)
    requires s.receiver.stored <= reply.end.stored && reply.end.timer.Some?
    ensures Inv(ReceiverDoes(s, reply))
  {
    NetworkAfterReceiver(s, reply);
  }

  lemma DeliverDataStep(s: Stream, f: DataFlight, statistics: LinkStatistics)
    requires Inv(s) && Enabled(s, DeliverData(f, statistics))
    ensures Inv(Apply(s, DeliverData(f, statistics)))
  {
    assert FlightValid(f, s.sender.log);
    Alignment(s);
    HandleDataKeeps(s.receiver, f, s.now, statistics, s.base, s.ackBase, s.sender.log);
    ReceiverStep(s, ReceivingEnds.HandleData(s.receiver, f, s.now, statistics));
  }

  lemma ReceiverTickStep(s: Stream, next: int, statistics: LinkStatistics)
    requires Inv(s)
    ensures Inv(Apply(s, ReceiverTick(next, statistics)))
  {
    ReceivingEnds.HandleTickKeeps(s.receiver, next, s.now, statistics, s.base, s.ackBase, s.sender.log);
    ReceiverStep(s, ReceivingEnds.HandleTick(s.receiver, next, s.now, statistics));
  }

  lemma RememberedUnion(e: SendingEnd, s: set<nat>, a: set<nat>, b: set<nat>)
    requires s <= a + b && Remembered(e, a) && Remembered(e, b)
    ensures Remembered(e, s)
  {
  }

  lemma ConfirmationStep(s: Stream, r': ReceivingEnd, a: nat)
    requires Inv(s) && a in s.network.acksOfAcks && a < |s.receiver.records|
    requires ReceiverValid(r', s.base, s.ackBase, s.sender.log)
    requires r'.stored == s.receiver.stored && r'.records == s.receiver.records && r'.timer == s.receiver.timer
    requires r'.confirmed <= s.receiver.confirmed + s.receiver.records[a].Content()
    ensures Inv(s.(receiver := r'))
  {
    RememberedUnion(s.sender, r'.confirmed, s.receiver.confirmed, s.receiver.records[a].Content());
  }

  lemma ConfirmationKeeps(s: Stream, a: nat)
    requires Inv(s) && Enabled(s, DeliverAckOfAck(a))
    ensures var r' := AckOfAck(s.receiver, Wire(s.ackBase + a));
      && ReceiverValid(r', s.base, s.ackBase, s.sender.log)
      && r'.stored == s.receiver.stored && r'.records == s.receiver.records && r'.timer == s.receiver.timer
      && r'.confirmed <= s.receiver.confirmed + s.receiver.records[a].Content()
  {
    AckOfAckKeeps(s.receiver, a, s.base, s.ackBase, s.sender.log);
  }

  lemma AckOfAckApplied(s: Stream, a: nat)
    requires StatesValid(s)
    ensures Apply(s, DeliverAckOfAck(a)) == s.(receiver := AckOfAck(s.receiver, Wire(s.ackBase + a)))
  {
  }

  lemma ConfirmedStep(s: Stream, a: nat)
    requires Inv(s) && Enabled(s, DeliverAckOfAck(a))
    ensures Inv(s.(receiver := AckOfAck(s.receiver, Wire(s.ackBase + a))))
  {
    ConfirmationKeeps(s, a);
    ConfirmationStep(s, AckOfAck(s.receiver, Wire(s.ackBase + a)), a);
  }

  lemma DeliverAckOfAckStep(s: Stream, a: nat)
    requires Inv(s) && Enabled(s, DeliverAckOfAck(a))
    ensures Inv(Apply(s, DeliverAckOfAck(a)))
  {
    ConfirmedStep(s, a);
    AckOfAckApplied(s, a);
  }

  lemma ReadStep(s: Stream, size: nat)
    requires Inv(s)
    ensures Inv(Apply(s, Read(size)))
  {
    ReadOutKeeps(s.receiver, size, s.base, s.ackBase, s.sender.log);
    ReceiverStep(s, Reply(ReadOut(s.receiver, size), {}));
    assert s.network.acks + {} == s.network.acks;
  }

  lemma ReceiverTickEarlierStep(s: Stream, time: int)
    requires Inv(s)
    ensures Inv(Apply(s, ReceiverTickEarlier(time)))
  {
    var r' := s.receiver.(timer := Earlier(s.receiver.timer, time));
    RetimedKeeps(s.receiver, r'.timer, s.base, s.ackBase, s.sender.log);
    ReceiverStep(s, Reply(r', {}));
    assert s.network.acks + {} == s.network.acks;
  }

  lemma WaitStep(s: Stream, time: int)
    requires Inv(s) && s.now <= time
    ensures Inv(Apply(s, Wait(time)))
  {
    assert SentOrLost(s.sender.state.window.items, time);
  }

  /** Every event keeps the invariant. */
  lemma StepKeepsInv(s: Stream, event: Event)
    requires Inv(s) && Enabled(s, event)
    ensures Inv(Apply(s, event))
  {
    var e := s.sender;
    match event
    case Write(data, failures) =>
      StartWriteKeeps(e, data, s.base, s.now, failures);
      SoundWithoutNewAcks(e, StartWrite(e, data, s.now, failures).end, s.receiver);
      SenderStep(s, StartWrite(e, data, s.now, failures));
    case ContinueWrite(failures) =>
      ProcessWriteKeeps(e, s.base, s.now, failures);
      SoundWithoutNewAcks(e, ProcessWrite(e, s.now, failures).end, s.receiver);
      SenderStep(s, ProcessWrite(e, s.now, failures));
    case Tick(failures, failures') =>
      SendingEnds.HandleTickKeeps(e, s.base, s.now, failures, failures');
      SoundWithoutNewAcks(e, SendingEnds.HandleTick(e, s.now, failures, failures').end, s.receiver);
      SenderStep(s, SendingEnds.HandleTick(e, s.now, failures, failures'));
    case DeliverAck(f, failures, failures') => DeliverAckStep(s, f, failures, failures');
    case DeliverNegativeAck(packet, failures) =>
      HandleNegativeAckKeeps(e, packet, s.base, s.now, failures);
      SoundWithoutNewAcks(e, SendingEnds.HandleNegativeAck(e, packet, s.now, failures).end, s.receiver);
      SenderStep(s, SendingEnds.HandleNegativeAck(e, packet, s.now, failures));
    case DeliverData(f, statistics) => DeliverDataStep(s, f, statistics);
    case DeliverAckOfAck(a) => DeliverAckOfAckStep(s, a);
    case Read(size) => ReadStep(s, size);
    case ReceiverTick(next, statistics) => ReceiverTickStep(s, next, statistics);
    case Lose(remaining) => LoseStep(s, remaining);
    case Wait(time) => WaitStep(s, time);
    case TickEarlier(time) => TickEarlierStep(s, time);
    case ReceiverTickEarlier(time) => ReceiverTickEarlierStep(s, time);
  }

  lemma LoseStep(s: Stream, remaining: Network)
    requires Inv(s) && Enabled(s, Lose(remaining))
    ensures Inv(Apply(s, Lose(remaining)))
  {
  }

  lemma TickEarlierStep(s: Stream, time: int)
    requires Inv(s)
    ensures Inv(Apply(s, TickEarlier(time)))
  {
    var e' := s.sender.(timer := Earlier(s.sender.timer, time));
    assert forall j :: Acked(e', j) <==> Acked(s.sender, j);
  }
}
