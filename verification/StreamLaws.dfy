/** What every packet of a stream carries. */
module StreamLaws {
  import opened SequenceNumbers
  import opened SlidingWindows
  import opened Packets
  import opened Runs
  import opened CongestionControls
  import opened AckRanges
  import opened TickTimers
  import opened SenderSpec
  import opened ReceiverSpec
  import opened SendingEnds
  import opened ReceivingEnds
  import opened Streams
  import opened StreamTheorems
  import opened SenderLaws
  import opened ReceiverLaws

  // ---- Acks report the room that there is ----

  ghost predicate Reports(f: AckFlight, w: Window<Unread>) {
    f.packet.info.Some? && ReportsRoom(w, f.packet.info.value.availableBufferSize)
  }

  lemma AddedReports(e: ReceivingEnd, now: int, statistics: LinkStatistics)
    requires e.state.unread.Valid()
    ensures var reply := Ticked(e, now, statistics);
      forall f :: f in reply.acks ==> Reports(f, reply.end.state.unread)
  {
    AckReportsRoom(e.state, now, statistics);
  }

  lemma DataReports(e: ReceivingEnd, d: DataFlight, now: int, statistics: LinkStatistics)
    requires e.state.Valid()
    ensures var reply := ReceivingEnds.HandleData(e, d, now, statistics);
      forall f :: f in reply.acks ==> Reports(f, reply.end.state.unread)
  {
    StoreKeepsValid(e.state, d.packet);
    AddedReports(Stored(e, d), now, statistics);
  }

  /** An ack that an event puts into the network reports the room that is left after the event. */
  lemma NewAckReports(s: Stream, event: Event, f: AckFlight)
    requires Step(s, event).Some?
    requires f in Step(s, event).value.network.acks && f !in s.network.acks
    ensures Reports(f, Step(s, event).value.receiver.state.unread)
  {
    match event
    case DeliverData(d, statistics) => DataReports(s.receiver, d, s.now, statistics);
    case ReceiverTick(next, statistics) => AddedReports(s.receiver.(timer := Some(next)), s.now, statistics);
    case _ =>
  }

  /** The i-th event of a run has put f into the network, and f reports the room that was left then. */
  ghost predicate MadeAt(s: Stream, events: seq<Event>, i: nat, f: AckFlight) {
    && i < |events| && CanPlay(s, events[..i]) && CanPlay(s, events[..i + 1])
    && f !in Play(s, events[..i]).network.acks && f in Play(s, events[..i + 1]).network.acks
    && Reports(f, Play(s, events[..i + 1]).receiver.state.unread)
  }

  lemma MadeNow(s: Stream, events: seq<Event>, f: AckFlight)
    requires events != [] && Step(s, events[0]).Some?
    requires f in Step(s, events[0]).value.network.acks && f !in s.network.acks
    ensures MadeAt(s, events, 0, f)
  {
    NewAckReports(s, events[0], f);
    RunOne(Step, s, events[0]);
    assert events[..1] == [events[0]];
  }

  lemma RunFromFirst(s: Stream, events: seq<Event>, j: nat)
    requires events != [] && Step(s, events[0]).Some? && j < |events|
    ensures Run(Step, s, events[..j + 1]) == Run(Step, Step(s, events[0]).value, events[1..][..j])
  {
    RunFirst(Step, s, events[0], events[1..][..j]);
    assert events[..j + 1] == [events[0]] + events[1..][..j];
  }

  lemma MadeLater(s: Stream, events: seq<Event>, j: nat, f: AckFlight)
    requires events != [] && Step(s, events[0]).Some? && MadeAt(Step(s, events[0]).value, events[1..], j, f)
    ensures MadeAt(s, events, j + 1, f)
  {
    RunFromFirst(s, events, j);
    RunFromFirst(s, events, j + 1);
  }

  lemma {:induction false} AcksReportWhatWasLeft(s: Stream, events: seq<Event>, f: AckFlight) returns (i: nat)
    requires CanPlay(s, events) && f in Play(s, events).network.acks && f !in s.network.acks
    ensures MadeAt(s, events, i, f)
    decreases |events|
  {
    if f in Step(s, events[0]).value.network.acks {
      MadeNow(s, events, f);
      i := 0;
    } else {
      var j := AcksReportWhatWasLeft(Step(s, events[0]).value, events[1..], f);
      MadeLater(s, events, j, f);
      i := j + 1;
    }
  }

  /** Every ack in the network of any run reports, for the moment when it was made, 8162 bytes for exactly the
      upcoming packets that would have found a slot. */
  lemma EveryAckReportsRoom(start: Stream, events: seq<Event>, f: AckFlight)
    requires Init(start) && CanPlay(start, events) && f in Play(start, events).network.acks
    ensures exists i :: MadeAt(start, events, i, f)
  {
    var i := AcksReportWhatWasLeft(start, events, f);
  }

  // ---- The send timeout ----

  /** Between handlers the send timeout follows the front packet, as a tick relies on. */
  lemma TimeoutFollowsFront(s: Stream)
    requires Reachable(s)
    ensures TimesOutWithFront(s.sender.state)
  {
    ReachableInv(s);
  }

  // ---- The packets that a sender cuts ----

  /** What a packet carries besides its number, its message and its bytes: where it goes to, and whether the
      packet before it belongs to the same message, which is what the flag for a first packet says. Only the
      last packet of a message may be shorter than 1450 bytes. */
  ghost predicate StampedAt(log: seq<DataPacket>, i: nat, destination: Uint32)
    requires i < |log|
  {
    && log[i].destination == destination && log[i].inOrder && log[i].timeStamp == 0
    && (log[i].firstInMessage <==> i > 0 && log[i - 1].messageNumber == log[i].messageNumber)
    && (log[i].lastInMessage || |log[i].data| >= 1450)
  }

  /** The message of the last packet, 0 before there is one. */
  function LastMessage(log: seq<DataPacket>): nat { if log == [] then 0 else log[|log| - 1].messageNumber }

  ghost predicate Stamped(e: SendingEnd) {
    && (forall i :: 0 <= i < |e.log| ==> StampedAt(e.log, i, e.destination))
    && e.state.currentMessage == LastMessage(e.log)
    && (e.waiting != [] ==> e.message > 0)
  }

  /** The packets of one call of AddData, which the packets before them belong to `current`. */
  ghost predicate CutFrom(packets: seq<DataPacket>, current: nat, message: nat, destination: Uint32) {
    forall i :: 0 <= i < |packets| ==>
      && packets[i].destination == destination && packets[i].inOrder && packets[i].timeStamp == 0
      && packets[i].messageNumber == message
      && (packets[i].firstInMessage <==> i > 0 || current == message)
      && (packets[i].lastInMessage || |packets[i].data| >= 1450)
  }

  lemma {:induction false} CutIsCutFrom(
    w: Window<Unacked>, size: nat, current: nat, message: nat, destination: Uint32, data: seq<Byte>, ptr: nat)
    requires size >= 1450 && ptr <= |data|
    ensures CutFrom(Cut(w, size, current, message, destination, data, ptr), current, message, destination)
    ensures Fill(w, size, current, message, destination, data, ptr).currentMessage ==
      if Cut(w, size, current, message, destination, data, ptr) == [] then current else message
    decreases |data| - ptr
  {
    if !w.IsFull() && ptr < |data| {
      var length := Min(size, |data| - ptr);
      var packet := Segment(w.End(), current, message, destination, data, ptr, length);
      CutIsCutFrom(w.Append(Unacked(packet, true, false, None)), size, message, message, destination, data, ptr + length);
    }
  }

  lemma CutBehind(log: seq<DataPacket>, packets: seq<DataPacket>, message: nat, destination: Uint32)
    requires forall i :: 0 <= i < |log| ==> StampedAt(log, i, destination)
    requires CutFrom(packets, LastMessage(log), message, destination) && (packets != [] ==> message > 0)
    ensures forall i :: 0 <= i < |log + packets| ==> StampedAt(log + packets, i, destination)
    ensures LastMessage(log + packets) == if packets == [] then LastMessage(log) else message
  {
    var all := log + packets;
    forall i | 0 <= i < |all| ensures StampedAt(all, i, destination) {
      if i < |log| {
        assert StampedAt(log, i, destination);
      } else {
        assert all[i] == packets[i - |log|];
      }
    }
  }

  /** Every packet but a message's last has exactly the size that congestion control asks for; cutting stops
      when the message is used up or the window is full, and not before. */
  ghost predicate Filled(packets: seq<DataPacket>, size: nat, used: nat, maximum: nat, whole: bool) {
    && (forall i :: 0 <= i < |packets| ==>
          && (packets[i].lastInMessage <==> whole && i == |packets| - 1)
          && 0 < |packets[i].data| <= size && (|packets[i].data| == size || packets[i].lastInMessage))
    && (packets != [] ==> used + |packets| <= maximum)
    && (!whole ==> used + |packets| >= maximum)
  }

  lemma {:induction false} CutFills(
    w: Window<Unacked>, size: nat, current: nat, message: nat, destination: Uint32, data: seq<Byte>, ptr: nat)
    requires size > 0 && ptr <= |data|
    ensures Filled(Cut(w, size, current, message, destination, data, ptr), size, |w.items|, w.maximumSize,
                   Fill(w, size, current, message, destination, data, ptr).accepted == |data|)
    decreases |data| - ptr
  {
    if !w.IsFull() && ptr < |data| {
      var length := Min(size, |data| - ptr);
      var packet := Segment(w.End(), current, message, destination, data, ptr, length);
      CutFills(w.Append(Unacked(packet, true, false, None)), size, message, message, destination, data, ptr + length);
    }
  }

  /** So it is for every write, at the sizes of the moment. */
  lemma WritesFillTheWindow(e: SendingEnd)
    requires e.state.Valid()
    ensures var control := e.state.control;
      Filled(NewPackets(e), control.dataSize, |e.state.window.items|, control.windowSize, Enqueued(e).waiting == [])
  {
    CutFills(Resized(e.state), e.state.control.dataSize, e.state.currentMessage, e.message, e.destination, e.waiting, 0);
  }

  lemma EnqueuedStamped(e: SendingEnd)
    requires Stamped(e) && e.state.Valid()
    ensures Stamped(Enqueued(e)) && Enqueued(e).destination == e.destination
  {
    CutIsCutFrom(Resized(e.state), e.state.control.dataSize, e.state.currentMessage, e.message, e.destination, e.waiting, 0);
    CutBehind(e.log, NewPackets(e), e.message, e.destination);
  }

  /** Nothing has changed that matters for the packets cut so far. */
  ghost predicate SameCut(e: SendingEnd, e': SendingEnd) {
    && e'.log == e.log && e'.destination == e.destination && e'.state.currentMessage == e.state.currentMessage
    && e'.message == e.message && e'.waiting == e.waiting
  }

  lemma WriteStamped(e: SendingEnd, now: int, failures: nat)
    requires Stamped(e) && e.state.Valid()
    ensures var e' := ProcessWrite(e, now, failures).end; Stamped(e') && e'.destination == e.destination
  {
    if e.waiting != [] {
      EnqueuedStamped(e);
      assert SameCut(Enqueued(e), Transmitted(Enqueued(e), now, failures).end);
    }
  }

  lemma WriteStampedFrom(e: SendingEnd, e1: SendingEnd, now: int, failures: nat)
    requires Stamped(e) && SameCut(e, e1) && e1.state.Valid()
    ensures var e' := ProcessWrite(e1, now, failures).end; Stamped(e') && e'.destination == e.destination
  {
    WriteStamped(e1, now, failures);
  }

  lemma StepStamped(s: Stream, event: Event)
    requires Stamped(s.sender) && Step(s, event).Some?
    ensures var e := Step(s, event).value.sender; Stamped(e) && e.destination == s.sender.destination
  {
    var e := s.sender;
    match event
    case Write(data, failures) => WriteStamped(NewMessage(e, data), s.now, failures);
    case ContinueWrite(failures) => WriteStamped(e, s.now, failures);
    case Tick(failures, failures') =>
      WriteStampedFrom(e, Transmitted(e.(state := CheckTimeout(e.state, s.now), timer := None), s.now, failures).end, s.now, failures');
    case DeliverAck(f, failures, failures') =>
      WriteStampedFrom(e, SentAfterAck(e, f.packet, s.now, failures).end, s.now, failures');
    case DeliverNegativeAck(packet, failures) =>
      assert SameCut(e, SendingEnds.HandleNegativeAck(e, packet, s.now, failures).end);
    case _ =>
  }

  lemma {:induction false} PlayStamped(s: Stream, events: seq<Event>)
    requires Stamped(s.sender) && CanPlay(s, events)
    ensures Stamped(Play(s, events).sender) && Play(s, events).sender.destination == s.sender.destination
    decreases |events|
  {
    if events != [] {
      StepStamped(s, events[0]);
      PlayStamped(Step(s, events[0]).value, events[1..]);
    }
  }

  /** In every run every packet that was ever cut goes to the socket that the sender was set up for, and none
      but the last of a message has less than 1450 bytes. Its flag for a first packet says that it is not. */
  lemma PacketsAreStamped(start: Stream, events: seq<Event>)
    requires Init(start) && CanPlay(start, events)
    ensures var log := Play(start, events).sender.log;
      forall i :: 0 <= i < |log| ==> StampedAt(log, i, start.sender.destination)
    ensures forall f :: f in Play(start, events).network.data ==> f.packet.destination == start.sender.destination
  {
    PlayStamped(start, events);
    InitInv(start);
    PlayKeepsInv(start, events);
    var s := Play(start, events);
    forall f | f in s.network.data ensures f.packet.destination == start.sender.destination {
      assert FlightValid(f, s.sender.log);
      assert StampedAt(s.sender.log, f.index, start.sender.destination);
    }
  }
}
