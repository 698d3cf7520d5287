/** What holds in every run of a stream, and that no run can get stuck. */
module StreamTheorems {
  import opened SequenceNumbers
  import opened SlidingWindows
  import opened Packets
  import opened Runs
  import opened CongestionControls
  import opened AckRanges
  import opened TickTimers
  import opened SenderSpec
  import opened ReceiverSpec
  import opened SendingEnds
  import opened ReceivingEnds
  import opened Streams

  ghost function Step(s: Stream, event: Event): Option<Stream> {
    if StatesValid(s) && Enabled(s, event) then Some(Apply(s, event)) else None
  }

  /** The events can happen one after the other from s. */
  ghost predicate CanPlay(s: Stream, events: seq<Event>) {
    Run(Step, s, events).Some?
  }

  ghost function Play(s: Stream, events: seq<Event>): Stream
    requires CanPlay(s, events)
  {
    Run(Step, s, events).value
  }

  lemma {:induction false} PlayKeepsInv(s: Stream, events: seq<Event>)
    requires Inv(s) && CanPlay(s, events)
    ensures Inv(Play(s, events))
    decreases |events|
  {
    if events != [] {
      StepKeepsInv(s, events[0]);
      PlayKeepsInv(Apply(s, events[0]), events[1..]);
    }
  }

  ghost predicate Reachable(s: Stream) {
    exists start, events :: Init(start) && CanPlay(start, events) && Play(start, events) == s
  }

  lemma ReachableInv(s: Stream)
    requires Reachable(s)
    ensures Inv(s)
  {
    var start, events :| Init(start) && CanPlay(start, events) && Play(start, events) == s;
    InitInv(start);
    PlayKeepsInv(start, events);
  }

  lemma ReachableStep(s: Stream, event: Event)
    requires Reachable(s) && Step(s, event).Some?
    ensures Reachable(Step(s, event).value)
  {
    var start, events :| Init(start) && CanPlay(start, events) && Play(start, events) == s;
    RunOne(Step, s, event);
    PlayAppend(start, events, [event]);
  }

  // ---- Safety ----

  lemma {:induction false} PayloadGrows(log: seq<DataPacket>, k: nat, m: nat)
    requires k <= m <= |log|
    ensures Payload(log, k) <= Payload(log, m)
  {
    if k < m {
      PayloadGrows(log, k, m - 1);
    }
  }

  /** In every run, with loss, duplication, reordering and wraparound: the bytes handed to the reading
      application are a prefix of the bytes that the sender took, which are a prefix of those written. */
  lemma DeliveredIsPrefix(s: Stream)
    requires Reachable(s)
    ensures s.receiver.delivered <= s.sender.accepted <= s.sender.submitted
  {
    ReachableInv(s);
    var r, log := s.receiver, s.sender.log;
    var items := r.state.unread.items;
    if items != [] && items[0].bytesRead > 0 {
      assert Slot(items[0], log[r.consumed + 0], (r.consumed + 0) in r.stored);
      assert FrontRead(items) <= log[r.consumed].data;
      assert Payload(log, r.consumed + 1) == Payload(log, r.consumed) + log[r.consumed].data;
      assert r.delivered <= Payload(log, r.consumed + 1);
      PayloadGrows(log, r.consumed + 1, |log|);
    } else {
      assert r.delivered == Payload(log, r.consumed) + [];
      PayloadGrows(log, r.consumed, |log|);
    }
  }

  /** What the invariant says about acks. */
  lemma ReachableAcks(s: Stream)
    requires Reachable(s)
    ensures AckSound(s.sender, s.receiver) && Remembered(s.sender, s.receiver.confirmed)
    ensures s.receiver.state.received == Nums(s.base, s.receiver.stored - s.receiver.confirmed)
  {
    ReachableInv(s);
    assert BookValid(s.receiver, s.base, s.ackBase);
  }

  /** No ack lies and none is forgotten: what the sender takes for acknowledged is stored, and what is
      stored is listed by the next ack or already known to the sender. */
  lemma NothingLiedNothingForgotten(s: Stream, j: nat)
    requires Reachable(s)
    ensures Acked(s.sender, j) ==> j in s.receiver.stored
    ensures j in s.receiver.stored ==> Wire(s.base + j) in s.receiver.state.received || Acked(s.sender, j)
  {
    ReachableAcks(s);
    if j in s.receiver.stored && j !in s.receiver.confirmed {
      assert j in s.receiver.stored - s.receiver.confirmed;
    }
  }

  lemma WindowClassifies(w: Window<Unread>, base: nat, lo: nat, i: nat)
    requires w.begin == Wire(base + lo) && |w.items| <= MAXIMUM_WINDOW_SIZE
    requires lo + |w.items| < i + LIFETIME && i < lo + |w.items| + MAXIMUM_WINDOW_SIZE
    ensures w.Contains(Wire(base + i)) <==> lo <= i < lo + |w.items|
    ensures w.IsComingSoon(Wire(base + i)) <==> lo + |w.items| <= i
  {
    var hi := lo + |w.items|;
    ContainsIndex(w, base, lo, i);
    assert w.End() == Wire(base + hi) by { WireAdd(base + lo, |w.items|); }
    if hi <= i {
      OffsetOfWires(base + hi, base + i);
    } else {
      OffsetBackwards(base + hi, base + i);
    }
  }

  /** Every packet in flight that is younger than the lifetime has been consumed already, has its slot
      in the receive window, or is expected soon; so no genuine packet is filtered out as nonsense. */
  lemma NoGenuinePacketIsNonsense(s: Stream, f: DataFlight)
    requires Reachable(s) && f in s.network.data && |s.sender.log| < f.index + LIFETIME
    ensures s.sender.trimmed <= s.receiver.consumed + |s.receiver.state.unread.items| <= |s.sender.log|
    ensures var w := s.receiver.state.unread; var n := f.packet.sequenceNumber;
      && (w.Contains(n) <==> s.receiver.consumed <= f.index < s.receiver.consumed + |w.items|)
      && (w.IsComingSoon(n) <==> s.receiver.consumed + |w.items| <= f.index)
  {
    ReachableInv(s);
    Classified(s, f);
  }

  lemma Classified(s: Stream, f: DataFlight)
    requires Inv(s) && f in s.network.data && |s.sender.log| < f.index + LIFETIME
    ensures s.sender.trimmed <= s.receiver.consumed + |s.receiver.state.unread.items| <= |s.sender.log|
    ensures var w := s.receiver.state.unread; var n := f.packet.sequenceNumber;
      && (w.Contains(n) <==> s.receiver.consumed <= f.index < s.receiver.consumed + |w.items|)
      && (w.IsComingSoon(n) <==> s.receiver.consumed + |w.items| <= f.index)
  {
    Alignment(s);
    assert FlightValid(f, s.sender.log);
    assert f.packet.sequenceNumber == Wire(s.base + f.index);
    WindowClassifies(s.receiver.state.unread, s.base, s.receiver.consumed, f.index);
  }

  /** Every packet that is ever sent fits its buffer, so encoding never refuses one. */
  lemma PacketsFit(s: Stream)
    requires Reachable(s)
    ensures forall f :: f in s.network.acks ==> |f.packet.ranges| <= 514 && f.packet.RequiredBytes() <= MAX_PACKET_SIZE
    ensures forall f :: f in s.network.data ==> 0 < |f.packet.data| && 16 + |f.packet.data| <= MAX_PACKET_SIZE
  {
    ReachableInv(s);
    forall f | f in s.network.acks ensures |f.packet.ranges| <= 514 {
      assert AckFlightValid(f, s.base, s.ackBase, s.receiver.records);
      assert RecordValid(s.receiver.records[f.index], s.receiver.stored);
      AckIsSmall(f.packet, s.base, s.receiver.records[f.index], s.receiver.stored);
    }
    forall f | f in s.network.data ensures 0 < |f.packet.data| <= MAX_DATA_SIZE {
      assert FlightValid(f, s.sender.log);
    }
  }

  /** Messages are reported complete in order, each once, and only when every packet of that message and
      of all earlier ones is stored at the peer; the functors kept are those of the other messages. */
  lemma MessagesCompleteInOrder(s: Stream)
    requires Reachable(s)
    ensures forall i :: 0 <= i < |s.sender.completed| ==> s.sender.completed[i] == i + 1
    ensures forall m :: m in s.sender.functors <==> |s.sender.completed| < m <= s.sender.message
    ensures forall i :: 0 <= i < |s.sender.log| && s.sender.log[i].messageNumber <= |s.sender.completed| ==> i in s.receiver.stored
  {
    ReachableInv(s);
    var e := s.sender;
    forall i | 0 <= i < |e.log| && e.log[i].messageNumber <= |e.completed| ensures i in s.receiver.stored {
      assert e.log[i].messageNumber == MessageAt(e.log, i);
      if i >= e.trimmed {
        MessagesIncrease(e.log, e.trimmed, i);
      }
      assert Acked(e, i);
    }
  }

  /** When an ack completes messages, they are all different and the functor of each of them is kept, so
      looking them up and erasing them one after the other never misses. */
  lemma FunctorLookupNeverMisses(s: Stream, packet: AckPacket)
    requires Reachable(s)
    ensures s.sender.state.Valid()
    ensures AllDifferent(Acknowledge(s.sender.state, packet).1, s.sender.functors)
  {
    ReachableInv(s);
    AcknowledgedMessages(s.sender, s.base, s.now, packet);
  }

  /** A flushed sender has no write waiting, and every byte ever written is stored at the peer. */
  lemma FlushedMeansStored(s: Stream)
    requires Reachable(s) && s.sender.state.window.items == []
    ensures s.sender.waiting == [] && s.sender.submitted == s.sender.accepted == Payload(s.sender.log, |s.sender.log|)
    ensures forall i :: 0 <= i < |s.sender.log| ==> i in s.receiver.stored
    ensures s.sender.functors == {}
  {
    ReachableInv(s);
    var e := s.sender;
    forall i | 0 <= i < |e.log| ensures i in s.receiver.stored {
      assert Acked(e, i);
    }
  }

  // ---- Playing ----

  lemma PlayAppend(s: Stream, a: seq<Event>, b: seq<Event>)
    requires CanPlay(s, a) && CanPlay(Play(s, a), b)
    ensures CanPlay(s, a + b) && Play(s, a + b) == Play(Play(s, a), b)
  {
    RunAppend(Step, s, a, b);
  }

  lemma PlayOne(s: Stream, event: Event)
    requires Inv(s) && Enabled(s, event)
    ensures CanPlay(s, [event]) && Play(s, [event]) == Apply(s, event) && Inv(Apply(s, event))
  {
    StepKeepsInv(s, event);
    RunOne(Step, s, event);
  }

  // ---- Going on without a write ----

  /** An event that writes nothing and, if it reads, takes all that can be read. */
  ghost predicate Calm(s: Stream, event: Event) {
    !event.Write? && (event.Read? ==> |Readable(s.receiver.state.unread.items)| < event.size)
  }

  ghost function CalmStep(s: Stream, event: Event): Option<Stream> {
    if Calm(s, event) then Step(s, event) else None
  }

  ghost predicate CanGoOn(s: Stream, events: seq<Event>) {
    Run(CalmStep, s, events).Some?
  }

  ghost function GoneOn(s: Stream, events: seq<Event>): Stream
    requires CanGoOn(s, events)
  {
    Run(CalmStep, s, events).value
  }

  ghost predicate NoWrites(events: seq<Event>) {
    forall i :: 0 <= i < |events| ==> !events[i].Write?
  }

  /** Going on is one way of playing. */
  lemma {:induction false} GoingOnIsPlaying(s: Stream, events: seq<Event>)
    requires CanGoOn(s, events)
    ensures NoWrites(events) && CanPlay(s, events) && Play(s, events) == GoneOn(s, events)
    decreases |events|
  {
    if events != [] {
      GoingOnIsPlaying(CalmStep(s, events[0]).value, events[1..]);
      assert forall i :: 1 <= i < |events| ==> events[i] == events[1..][i - 1];
    }
  }

  lemma GoOnAppend(s: Stream, a: seq<Event>, b: seq<Event>)
    requires CanGoOn(s, a) && CanGoOn(GoneOn(s, a), b)
    ensures CanGoOn(s, a + b) && GoneOn(s, a + b) == GoneOn(GoneOn(s, a), b)
  {
    RunAppend(CalmStep, s, a, b);
  }

  lemma GoOnOne(s: Stream, event: Event)
    requires Inv(s) && Enabled(s, event) && Calm(s, event)
    ensures Inv(Apply(s, event))
    ensures CanGoOn(s, [event]) && GoneOn(s, [event]) == Apply(s, event)
  {
    StepKeepsInv(s, event);
    RunOne(CalmStep, s, event);
  }

  // ---- No stuck state ----

  /** A time by which the timer has fired and the front packet has timed out. */
  function WakeTime(s: Stream): (t: int)
    requires s.sender.timer.Some?
    ensures s.now <= t && s.sender.timer.value <= t
  {
    var items := s.sender.state.window.items;
    var t := if s.sender.timer.value > s.now then s.sender.timer.value else s.now;
    if items != [] && items[0].lastSend.Some? && items[0].lastSend.value + SEND_TIMEOUT + 1 > t
    then items[0].lastSend.value + SEND_TIMEOUT + 1 else t
  }

  /** When the front packet has timed out, a tick marks it as lost. */
  lemma FrontMarked(e: SendingEnd, now: int)
    requires e.state.window.items != [] && Settled(e) && SentOrLost(e.state.window.items, now)
    requires var front := e.state.window.items[0]; front.lastSend.Some? ==> front.lastSend.value + SEND_TIMEOUT < now
    ensures CheckTimeout(e.state, now).window.items[0].lost
  {
  }

  /** A sender whose window is full adds nothing. */
  lemma FullWindowTakesNothing(e: SendingEnd)
    requires e.state.Valid() && |e.state.window.items| >= e.state.control.windowSize
    ensures Enqueued(e).log == e.log
  {
  }

  lemma TickSendsFront(e: SendingEnd, base: nat, now: int)
    requires CoreValid(e, base, now) && Settled(e) && e.state.window.items != []
    requires var front := e.state.window.items[0]; front.lastSend.Some? ==> front.lastSend.value + SEND_TIMEOUT < now
    ensures var o := SendingEnds.HandleTick(e, now, 0, 0);
      && DataFlight(e.trimmed, e.log[e.trimmed]) in o.flights
      && o.end.log == e.log && o.end.trimmed == e.trimmed && o.end.submitted == e.submitted
  {
    var e1 := e.(state := CheckTimeout(e.state, now), timer := None);
    FrontMarked(e, now);
    var sent := Transmitted(e1, now, 0);
    assert SendPosition(e1.state.window.items, 0, 0) == 0;
    assert e1.state.window.items[0].packet == e.state.window.items[0].packet == e.log[e.trimmed + 0];
    assert DataFlight(e.trimmed, e.log[e.trimmed]) in sent.flights;
    if e.waiting != [] {
      FullWindowTakesNothing(sent.end);
    }
  }

  /** From any state with unacknowledged data, waiting and ticking puts the front packet on the wire. */
  lemma FrontIsResent(s: Stream) returns (events: seq<Event>)
    requires Inv(s) && s.sender.state.window.items != []
    ensures CanGoOn(s, events) && Inv(GoneOn(s, events))
    ensures var s' := GoneOn(s, events); var e := s.sender;
      && DataFlight(e.trimmed, e.log[e.trimmed]) in s'.network.data
      && s'.sender.log == e.log && s'.sender.trimmed == e.trimmed && s'.sender.submitted == e.submitted
      && s'.receiver == s.receiver && s'.base == s.base
  {
    var wait, tick := Wait(WakeTime(s)), Tick(0, 0);
    GoOnOne(s, wait);
    var s1 := Apply(s, wait);
    GoOnOne(s1, tick);
    TickSendsFront(s1.sender, s1.base, s1.now);
    events := [wait] + [tick];
    GoOnAppend(s, [wait], [tick]);
  }

  /** A read that is longer than what can be read empties a window in which nothing is lost. */
  lemma {:induction false} ReadEmpties(w: Window<Unread>, out: seq<Byte>, size: nat)
    requires forall k :: 0 <= k < |w.items| ==> !w.items[k].lost
    requires |out| + |Readable(w.items)| < size
    ensures ReceiverSpec.Read(w, out, size).window.items == []
    decreases |w.items|
  {
    if w.items != [] {
      ReadWhole(w, out, size);
      ReadEmpties(w.RemoveFront(1), out + Rest(w.items[0]), size);
    }
  }

  /** The application can always read until there is room for the sender's front packet. */
  lemma RoomForFront(s: Stream) returns (events: seq<Event>)
    requires Inv(s) && s.sender.trimmed !in s.receiver.stored
    ensures CanGoOn(s, events) && Inv(GoneOn(s, events))
    ensures var s' := GoneOn(s, events); var r := s'.receiver;
      && s'.sender == s.sender && s'.network == s.network && s'.base == s.base
      && r.stored == s.receiver.stored && r.confirmed == s.receiver.confirmed
      && (s.sender.trimmed < r.consumed + |r.state.unread.items| || r.state.unread.items == [])
  {
    var r := s.receiver;
    var items := r.state.unread.items;
    if s.sender.trimmed < r.consumed + |items| {
      events := [];
    } else {
      forall k | 0 <= k < |items| ensures !items[k].lost {
        assert Acked(s.sender, r.consumed + k);
        assert Slot(items[k], s.sender.log[r.consumed + k], (r.consumed + k) in r.stored);
      }
      var size := |Readable(items)| + 1;
      ReadEmpties(r.state.unread, [], size);
      events := [Read(size)];
      GoOnOne(s, Read(size));
    }
  }

  /** There is a slot for a packet inside the window, and for the first packet of an empty window. */
  lemma SlotForFront(r: ReceivingEnd, i: nat, base: nat, log: seq<DataPacket>)
    requires UnreadValid(r.state.unread, base, log, r.stored, r.consumed, r.delivered) && r.state.control.Valid()
    requires Arrives(r, i, log) && r.consumed <= i
    requires i < r.consumed + |r.state.unread.items| || (r.state.unread.items == [] && i == r.consumed)
    ensures i < r.consumed + |Reserved(r, Wire(base + i)).items|
  {
    ReservedIs(r, i, base, log);
  }

  lemma StoredAdds(r: ReceivingEnd, f: DataFlight, base: nat, log: seq<DataPacket>)
    requires UnreadValid(r.state.unread, base, log, r.stored, r.consumed, r.delivered) && r.state.control.Valid()
    requires Sized(log) && Numbered(log, base)
    requires Arrives(r, f.index, log) && f.packet == log[f.index] && f.index !in r.stored && r.consumed <= f.index
    requires f.index < r.consumed + |r.state.unread.items| || (r.state.unread.items == [] && f.index == r.consumed)
    ensures f.index in Stored(r, f).stored
  {
    SlotForFront(r, f.index, base, log);
    StoredIs(r, f, base, log);
    LostSlot(Reserved(r, Wire(base + f.index)), f.index - r.consumed, base, log, r.stored, r.consumed, r.delivered);
  }

  lemma HandleDataStores(r: ReceivingEnd, f: DataFlight, now: int, statistics: LinkStatistics, base: nat, ackBase: nat, log: seq<DataPacket>)
    requires ReceiverValid(r, base, ackBase, log) && Sized(log) && Numbered(log, base)
    requires Arrives(r, f.index, log) && f.packet == log[f.index] && f.index !in r.stored && r.consumed <= f.index
    requires f.index < r.consumed + |r.state.unread.items| || (r.state.unread.items == [] && f.index == r.consumed)
    ensures var r' := ReceivingEnds.HandleData(r, f, now, statistics).end;
      f.index in r'.stored && r'.stored <= r.stored + {f.index} && r'.confirmed == r.confirmed
  {
    StoredAdds(r, f, base, log);
    StoredKeeps(r, f, base, ackBase, log);
  }

  /** The front packet can be brought into the receiver's store. */
  lemma FrontIsStored(s: Stream, statistics: LinkStatistics) returns (events: seq<Event>)
    requires Inv(s) && s.sender.state.window.items != []
    ensures CanGoOn(s, events) && Inv(GoneOn(s, events))
    ensures var s' := GoneOn(s, events);
      && s'.sender.log == s.sender.log && s'.sender.trimmed == s.sender.trimmed
      && s'.sender.submitted == s.sender.submitted
      && s.sender.trimmed in s'.receiver.stored
      && s'.receiver.stored <= s.receiver.stored + {s.sender.trimmed} && s'.receiver.confirmed == s.receiver.confirmed
  {
    if s.sender.trimmed in s.receiver.stored {
      events := [];
    } else {
      var resend := FrontIsResent(s);
      var s1 := GoneOn(s, resend);
      var read := RoomForFront(s1);
      var s2 := GoneOn(s1, read);
      var f := DataFlight(s.sender.trimmed, s.sender.log[s.sender.trimmed]);
      var deliver := DeliverData(f, statistics);
      FrontDelivered(s2, f, statistics);
      GoOnOne(s2, deliver);
      GoOnAppend(s1, read, [deliver]);
      GoOnAppend(s, resend, read + [deliver]);
      events := resend + (read + [deliver]);
    }
  }

  lemma FrontDelivered(s: Stream, f: DataFlight, statistics: LinkStatistics)
    requires Inv(s) && f in s.network.data && f.index == s.sender.trimmed && f.index !in s.receiver.stored
    requires var r := s.receiver; f.index < r.consumed + |r.state.unread.items| || r.state.unread.items == []
    ensures Enabled(s, DeliverData(f, statistics))
    ensures var s' := Apply(s, DeliverData(f, statistics));
      && s'.sender == s.sender && f.index in s'.receiver.stored
      && s'.receiver.stored <= s.receiver.stored + {f.index} && s'.receiver.confirmed == s.receiver.confirmed
  {
    var r, log := s.receiver, s.sender.log;
    assert FlightValid(f, log);
    Alignment(s);
    assert r.consumed <= f.index;
    HandleDataStores(r, f, s.now, statistics, s.base, s.ackBase, log);
  }

  /** A tick of the receiver acknowledges everything that is stored and not confirmed. */
  lemma TickAcknowledges(s: Stream, next: int, statistics: LinkStatistics)
    requires Inv(s) && s.receiver.stored - s.receiver.confirmed != {}
    ensures var r := s.receiver; var a := |r.records|;
      var reply := ReceivingEnds.HandleTick(r, next, s.now, statistics);
      && |reply.end.records| == a + 1 && reply.end.ackLow <= a
      && reply.end.records[a].Content() == r.stored - r.confirmed
      && reply.end.records[a].snapshot == reply.end.stored == r.stored && reply.end.confirmed == r.confirmed
      && exists f :: f in reply.acks && f.index == a
  {
    var r := s.receiver;
    var j :| j in r.stored - r.confirmed;
    assert Wire(s.base + j) in r.state.received;
    RunsAreExact(r.state.received);
    var a := AddAckToWindow(r.state, s.now, statistics);
    assert AckFlight(|r.records|, a.ack.value) in ReceivingEnds.HandleTick(r, next, s.now, statistics).acks;
  }

  /** Marking the front packet makes HandleAck trim it. */
  lemma MarkedFrontIsTrimmed(e: SendingEnd, packet: AckPacket, base: nat, now: int)
    requires CoreValid(e, base, now) && Settled(e) && Acked(Acknowledged(e, packet), e.trimmed)
    ensures SendingEnds.HandleAck(e, packet, now, 0, 0).end.trimmed > e.trimmed
  {
    AcknowledgedKeeps(e, base, now, packet);
    HandleAckKeeps(e, packet, base, now, 0, 0);
  }

  lemma AckTrimsFront(s: Stream, f: AckFlight)
    requires Inv(s) && Enabled(s, DeliverAck(f, 0, 0)) && s.sender.trimmed in s.receiver.records[f.index].Content()
    ensures Apply(s, DeliverAck(f, 0, 0)).sender.trimmed > s.sender.trimmed
  {
    AckMarksExactly(s, f);
    MarkedFrontIsTrimmed(s.sender, f.packet, s.base, s.now);
  }

  /** Nothing in s will outlive the lifetime while one more window of packets is sent. */
  ghost predicate Fresh(s: set<nat>, n: nat) {
    forall j :: j in s ==> j < n && n + MAXIMUM_WINDOW_SIZE < j + LIFETIME
  }

  lemma FreshWith(s: set<nat>, t: set<nat>, j: nat, n: nat)
    requires Fresh(s, n) && j < n && n + MAXIMUM_WINDOW_SIZE < j + LIFETIME && t <= s + {j}
    ensures Fresh(t, n)
  {
  }

  lemma FreshIsYoung(s: set<nat>, n: nat, n': nat)
    requires Fresh(s, n) && n <= n' <= n + MAXIMUM_WINDOW_SIZE
    ensures Young(s, n')
  {
  }

  /** One ack takes at most one window of packets out, and at most as many come in. */
  lemma LogGrowsByAWindow(s: Stream, f: AckFlight)
    requires Inv(s) && Enabled(s, DeliverAck(f, 0, 0))
    ensures var s' := Apply(s, DeliverAck(f, 0, 0));
      && |s.sender.log| <= |s'.sender.log| <= |s.sender.log| + MAXIMUM_WINDOW_SIZE
      && s'.sender.submitted == s.sender.submitted
  {
    StepKeepsInv(s, DeliverAck(f, 0, 0));
    Alignment(Apply(s, DeliverAck(f, 0, 0)));
    HandleAckKeeps(s.sender, f.packet, s.base, s.now, 0, 0);
    HandleAckTrims(s.sender, f.packet, s.base, s.now);
  }

  lemma HandleAckTrims(e: SendingEnd, packet: AckPacket, base: nat, now: int)
    requires CoreValid(e, base, now)
    ensures var e' := SendingEnds.HandleAck(e, packet, now, 0, 0).end;
      e'.trimmed <= |e.log| && e'.submitted == e.submitted
  {
  }

  /** Delivering the ack-of-ack settles everything that the ack listed. */
  lemma AckOfAckSettles(s: Stream, a: nat)
    requires Inv(s) && Enabled(s, DeliverAckOfAck(a)) && s.receiver.ackLow <= a
    requires s.receiver.records[a].snapshot == s.receiver.stored
    ensures var r := Apply(s, DeliverAckOfAck(a)).receiver;
      r.stored - r.confirmed == {} && (a + 1 == |r.records| ==> r.state.acks.items == [])
  {
    AckOfAckErases(s.receiver, a, s.base, s.ackBase);
  }

  /** Delivering an ack that lists everything unconfirmed trims the front packet if that is among it. */
  lemma AckDelivered(s: Stream, f: AckFlight)
    requires Inv(s) && f in s.network.acks && f.index < |s.receiver.records|
    requires Fresh(s.receiver.records[f.index].Content(), |s.sender.log|)
    ensures var deliver := DeliverAck(f, 0, 0); var s' := Apply(s, deliver);
      && Enabled(s, deliver) && s'.receiver == s.receiver && s'.ackBase == s.ackBase && f.index in s'.network.acksOfAcks
      && |s'.sender.log| <= |s.sender.log| + MAXIMUM_WINDOW_SIZE && |s.sender.log| <= |s'.sender.log|
      && s'.sender.trimmed >= s.sender.trimmed && s'.sender.submitted == s.sender.submitted
      && (s.sender.trimmed in s.receiver.records[f.index].Content() ==> s'.sender.trimmed > s.sender.trimmed)
  {
    FreshIsYoung(s.receiver.records[f.index].Content(), |s.sender.log|, |s.sender.log|);
    LogGrowsByAWindow(s, f);
    if s.sender.trimmed in s.receiver.records[f.index].Content() {
      AckTrimsFront(s, f);
    }
  }

  /** The ack-of-ack of an ack that lists everything unconfirmed leaves nothing unconfirmed. */
  lemma SettledBy(s: Stream, a: nat, n: nat)
    requires Inv(s) && a in s.network.acksOfAcks && a + 1 == |s.receiver.records| && s.receiver.ackLow <= a
    requires var record := s.receiver.records[a];
      && record.snapshot == s.receiver.stored && record.Content() == s.receiver.stored - s.receiver.confirmed
      && Fresh(record.Content(), n) && n <= |s.sender.log| <= n + MAXIMUM_WINDOW_SIZE
    ensures Enabled(s, DeliverAckOfAck(a))
    ensures var s' := Apply(s, DeliverAckOfAck(a));
      s'.sender == s.sender && s'.receiver.stored - s'.receiver.confirmed == {} && s'.receiver.state.acks.items == []
  {
    FreshIsYoung(s.receiver.records[a].Content(), n, |s.sender.log|);
    AckOfAckSettles(s, a);
  }

  /** An ack that lists everything unconfirmed, the front packet perhaps among it, makes the sender trim
      what it can, and its ack-of-ack settles it. */
  lemma AckAndSettle(s: Stream, f: AckFlight) returns (events: seq<Event>)
    requires Inv(s) && f in s.network.acks && f.index + 1 == |s.receiver.records| && s.receiver.ackLow <= f.index
    requires var record := s.receiver.records[f.index];
      && record.snapshot == s.receiver.stored && record.Content() == s.receiver.stored - s.receiver.confirmed
      && Fresh(record.Content(), |s.sender.log|)
    ensures CanGoOn(s, events) && Inv(GoneOn(s, events))
    ensures var s' := GoneOn(s, events);
      && s'.sender.trimmed >= s.sender.trimmed && s'.sender.submitted == s.sender.submitted
      && (s.sender.trimmed in s.receiver.records[f.index].Content() ==> s'.sender.trimmed > s.sender.trimmed)
      && s'.receiver.stored - s'.receiver.confirmed == {} && s'.receiver.state.acks.items == []
  {
    var deliver, settle := DeliverAck(f, 0, 0), DeliverAckOfAck(f.index);
    AckDelivered(s, f);
    GoOnOne(s, deliver);
    var s' := Apply(s, deliver);
    SettledBy(s', f.index, |s.sender.log|);
    GoOnOne(s', settle);
    GoOnAppend(s, [deliver], [settle]);
    events := [deliver] + [settle];
  }

  /** A time by which the receiver's timer has fired. */
  function ReceiverWakeTime(s: Stream): (t: int)
    requires s.receiver.timer.Some?
    ensures s.now <= t && s.receiver.timer.value <= t
  {
    if s.receiver.timer.value > s.now then s.receiver.timer.value else s.now
  }

  /** When the receiver's timer has fired, its ack and the ack-of-ack settle everything that is unconfirmed. */
  lemma TickAndSettle(s: Stream, statistics: LinkStatistics) returns (events: seq<Event>)
    requires Inv(s) && s.receiver.timer.Some? && s.receiver.timer.value <= s.now
    requires var open := s.receiver.stored - s.receiver.confirmed; open != {} && Fresh(open, |s.sender.log|)
    ensures CanGoOn(s, events) && Inv(GoneOn(s, events))
    ensures var s' := GoneOn(s, events);
      && s'.sender.trimmed >= s.sender.trimmed && s'.sender.submitted == s.sender.submitted
      && (s.sender.trimmed in s.receiver.stored - s.receiver.confirmed ==> s'.sender.trimmed > s.sender.trimmed)
      && s'.receiver.stored - s'.receiver.confirmed == {} && s'.receiver.state.acks.items == []
  {
    var tick := ReceiverTick(s.now + SEND_TIMEOUT, statistics);
    TickAcknowledges(s, tick.next, statistics);
    GoOnOne(s, tick);
    var s1 := Apply(s, tick);
    var f :| f in s1.network.acks && f.index == |s.receiver.records|;
    var settle := AckAndSettle(s1, f);
    GoOnAppend(s, [tick], settle);
    events := [tick] + settle;
  }

  /** Sooner or later the receiver's timer fires and whatever is unconfirmed is settled; if the front
      packet is stored, the sender trims it. */
  lemma Settle(s: Stream, statistics: LinkStatistics) returns (events: seq<Event>)
    requires Inv(s) && Fresh(s.receiver.stored - s.receiver.confirmed, |s.sender.log|)
    ensures CanGoOn(s, events) && Inv(GoneOn(s, events))
    ensures var s' := GoneOn(s, events);
      && s'.sender.trimmed >= s.sender.trimmed && s'.sender.submitted == s.sender.submitted
      && (s.sender.trimmed in s.receiver.stored && s.sender.trimmed < |s.sender.log| ==> s'.sender.trimmed > s.sender.trimmed)
      && s'.receiver.stored - s'.receiver.confirmed == {}
      && (if s.receiver.stored - s.receiver.confirmed == {} then s' == s else s'.receiver.state.acks.items == [])
  {
    FrontUnconfirmed(s);
    var open := s.receiver.stored - s.receiver.confirmed;
    if open == {} {
      assert s.sender.trimmed !in open;
      events := [];
    } else {
      var wait := Wait(ReceiverWakeTime(s));
      GoOnOne(s, wait);
      var settle := TickAndSettle(Apply(s, wait), statistics);
      GoOnAppend(s, [wait], settle);
      events := [wait] + settle;
    }
  }

  /** The front packet is not acknowledged, so the receiver has not taken it for confirmed. */
  lemma FrontUnconfirmed(s: Stream)
    requires Inv(s)
    ensures s.sender.trimmed < |s.sender.log| ==> s.sender.trimmed !in s.receiver.confirmed
  {
    if s.sender.trimmed < |s.sender.log| {
      assert !Acked(s.sender, s.sender.trimmed);
    }
  }

  /** One round: from any state with unacknowledged data, waiting, ticking, reading and deliveries make
      the sender trim its front packet. */
  lemma Round(s: Stream, statistics: LinkStatistics) returns (events: seq<Event>)
    requires Inv(s) && s.sender.state.window.items != []
    requires Fresh(s.receiver.stored - s.receiver.confirmed, |s.sender.log|)
    ensures CanGoOn(s, events) && Inv(GoneOn(s, events))
    ensures var s' := GoneOn(s, events);
      && s'.sender.trimmed > s.sender.trimmed && s'.sender.submitted == s.sender.submitted
      && s'.receiver.stored - s'.receiver.confirmed == {} && s'.receiver.state.acks.items == []
  {
    var store := FrontIsStored(s, statistics);
    var s' := GoneOn(s, store);
    Alignment(s);
    FreshWith(s.receiver.stored - s.receiver.confirmed, s'.receiver.stored - s'.receiver.confirmed,
              s.sender.trimmed, |s.sender.log|);
    var trim := Settle(s', statistics);
    GoOnAppend(s, store, trim);
    events := store + trim;
  }

  /** There is no stuck state: from every reachable state with unacknowledged data some finite sequence
      of events makes the sender trim its front packet, provided that nothing that still waits for an
      ack-of-ack is about to outlive the lifetime. */
  lemma NoStuckState(s: Stream, statistics: LinkStatistics) returns (events: seq<Event>)
    requires Reachable(s) && s.sender.state.window.items != []
    requires Fresh(s.receiver.stored - s.receiver.confirmed, |s.sender.log|)
    ensures CanPlay(s, events) && Play(s, events).sender.trimmed > s.sender.trimmed && NoWrites(events)
  {
    ReachableInv(s);
    events := Round(s, statistics);
    GoingOnIsPlaying(s, events);
  }

  lemma {:induction false} PacketsCount(log: seq<DataPacket>, k: nat)
    requires Sized(log) && k <= |log|
    ensures k <= |Payload(log, k)|
  {
    if k > 0 {
      PacketsCount(log, k - 1);
    }
  }

  lemma TrimmedBound(s: Stream)
    requires Inv(s)
    ensures s.sender.trimmed <= |s.sender.submitted|
  {
    PacketsCount(s.sender.log, |s.sender.log|);
  }

  /** A stream in which nothing is left to be acknowledged or confirmed. */
  ghost predicate Idle(s: Stream) {
    s.sender.state.window.items == [] && s.receiver.stored - s.receiver.confirmed == {}
  }

  /** Round after round the sender's window runs empty, and the ack window with it. */
  lemma {:induction false} Rounds(s: Stream, statistics: LinkStatistics) returns (events: seq<Event>)
    requires Inv(s) && s.receiver.stored - s.receiver.confirmed == {}
    ensures CanGoOn(s, events) && Inv(GoneOn(s, events))
    ensures var s' := GoneOn(s, events);
      && Idle(s') && s'.sender.submitted == s.sender.submitted
      && (!Idle(s) || s.receiver.state.acks.items == [] ==> s'.receiver.state.acks.items == [])
    decreases |s.sender.submitted| - s.sender.trimmed
  {
    TrimmedBound(s);
    if s.sender.state.window.items == [] {
      events := [];
    } else {
      var first := Round(s, statistics);
      var s' := GoneOn(s, first);
      TrimmedBound(s');
      var rest := Rounds(s', statistics);
      GoOnAppend(s, first, rest);
      events := first + rest;
    }
  }

  lemma Drain(s: Stream, statistics: LinkStatistics) returns (events: seq<Event>)
    requires Inv(s) && Fresh(s.receiver.stored - s.receiver.confirmed, |s.sender.log|)
    ensures CanGoOn(s, events) && Inv(GoneOn(s, events))
    ensures var s' := GoneOn(s, events);
      && Idle(s') && s'.sender.submitted == s.sender.submitted
      && (!Idle(s) || s.receiver.state.acks.items == [] ==> s'.receiver.state.acks.items == [])
  {
    var settle := Settle(s, statistics);
    var rounds := Rounds(GoneOn(s, settle), statistics);
    GoOnAppend(s, settle, rounds);
    events := settle + rounds;
  }

  /** When the sender's window is empty, all that it ever cut is stored, and no slot is lost. */
  lemma EverythingStored(s: Stream)
    requires Inv(s) && s.sender.state.window.items == []
    ensures s.sender.waiting == [] && s.sender.submitted == Payload(s.sender.log, |s.sender.log|)
    ensures forall j :: 0 <= j < |s.sender.log| ==> j in s.receiver.stored
    ensures forall k :: 0 <= k < |s.receiver.state.unread.items| ==> !s.receiver.state.unread.items[k].lost
  {
    var r, log := s.receiver, s.sender.log;
    forall j | 0 <= j < |log| ensures j in r.stored {
      assert Acked(s.sender, j);
    }
    forall k | 0 <= k < |r.state.unread.items| ensures !r.state.unread.items[k].lost {
      assert Slot(r.state.unread.items[k], log[r.consumed + k], (r.consumed + k) in r.stored);
    }
  }

  /** An empty receive window with everything stored means that everything has been delivered. */
  lemma EmptyWindowDelivered(r: ReceivingEnd, base: nat, log: seq<DataPacket>)
    requires UnreadValid(r.state.unread, base, log, r.stored, r.consumed, r.delivered) && r.state.unread.items == []
    requires forall j :: 0 <= j < |log| ==> j in r.stored
    ensures r.delivered == Payload(log, |log|)
  {
    assert r.consumed < |log| ==> r.consumed in r.stored;
    assert r.delivered == Payload(log, |log|) + [];
  }

  lemma ReadingEverything(s: Stream, size: nat)
    requires Inv(s) && s.sender.state.window.items == [] && size == |Readable(s.receiver.state.unread.items)| + 1
    ensures ReadOut(s.receiver, size).delivered == s.sender.submitted
  {
    EverythingStored(s);
    ReadEmpties(s.receiver.state.unread, [], size);
    ReadOutKeeps(s.receiver, size, s.base, s.ackBase, s.sender.log);
    EmptyWindowDelivered(ReadOut(s.receiver, size), s.base, s.sender.log);
  }

  /** From any state that keeps the invariant, everything written can be delivered, acknowledged and confirmed. */
  lemma Arrive(s: Stream, statistics: LinkStatistics) returns (events: seq<Event>)
    requires Inv(s) && Fresh(s.receiver.stored - s.receiver.confirmed, |s.sender.log|)
    ensures CanGoOn(s, events) && Inv(GoneOn(s, events))
    ensures var s' := GoneOn(s, events);
      && Idle(s') && s'.sender.waiting == [] && s'.receiver.delivered == s'.sender.submitted == s.sender.submitted
      && (!Idle(s) || s.receiver.state.acks.items == [] ==> s'.receiver.state.acks.items == [])
  {
    var drain := Drain(s, statistics);
    var s1 := GoneOn(s, drain);
    var size := |Readable(s1.receiver.state.unread.items)| + 1;
    ReadingEverything(s1, size);
    GoOnOne(s1, Read(size));
    GoOnAppend(s, drain, [Read(size)]);
    events := drain + [Read(size)];
  }

  /** Everything can still arrive: from every reachable state some finite continuation hands every byte
      that was ever written to the reading application, leaves the sender flushed, and leaves nothing stored
      that is not confirmed. Unless the stream was idle before, it leaves no ack in the ack window either. */
  lemma EverythingCanArrive(s: Stream, statistics: LinkStatistics) returns (events: seq<Event>)
    requires Reachable(s) && Fresh(s.receiver.stored - s.receiver.confirmed, |s.sender.log|)
    ensures CanGoOn(s, events) && CanPlay(s, events) && Play(s, events) == GoneOn(s, events) && NoWrites(events)
    ensures var s' := GoneOn(s, events);
      && Idle(s') && s'.sender.waiting == [] && s'.receiver.delivered == s'.sender.submitted == s.sender.submitted
      && (!Idle(s) || s.receiver.state.acks.items == [] ==> s'.receiver.state.acks.items == [])
  {
    ReachableInv(s);
    events := Arrive(s, statistics);
    GoingOnIsPlaying(s, events);
  }
}
