/** A connected socket sends one stream and receives another. What each of its handlers does to its two
    halves, which share a timer, is a run of each of the two streams. */
module SocketStreams {
  import opened SequenceNumbers
  import opened SlidingWindows
  import opened Packets
  import opened Runs
  import opened CongestionControls
  import opened AckRanges
  import opened TickTimers
  import opened SenderSpec
  import opened ReceiverSpec
  import opened SendingEnds
  import opened ReceivingEnds
  import opened Streams
  import opened StreamTheorems
  import Sockets

  // ---- Events of one stream ----

  function EarlierEvents(time: Option<int>): seq<Event> { if time.Some? then [TickEarlier(time.value)] else [] }

  function ReceiverEarlierEvents(time: Option<int>): seq<Event> { if time.Some? then [ReceiverTickEarlier(time.value)] else [] }

  lemma SenderRetimed(s: Stream, time: Option<int>)
    requires Inv(s)
    ensures CanPlay(s, EarlierEvents(time))
    ensures var s' := Play(s, EarlierEvents(time));
      Inv(s') && s' == s.(sender := s.sender.(timer := Soonest(s.sender.timer, time)))
  {
    if time.Some? {
      PlayOne(s, TickEarlier(time.value));
    }
  }

  lemma ReceiverRetimed(s: Stream, time: Option<int>)
    requires Inv(s)
    ensures CanPlay(s, ReceiverEarlierEvents(time))
    ensures var s' := Play(s, ReceiverEarlierEvents(time));
      Inv(s') && s' == s.(receiver := s.receiver.(timer := Soonest(s.receiver.timer, time)))
  {
    if time.Some? {
      PlayOne(s, ReceiverTickEarlier(time.value));
    }
  }

  /** The sender asks for its next tick 10 after a tick in which it sent something, and 300 after one in which
      it sent nothing. */
  lemma NextTickIs(e: SendingEnd, now: int, failures: nat, failures': nat)
    requires e.state.Valid()
    ensures var o := SendingEnds.HandleTick(e, now, failures, failures');
      o.end.timer == if o.flights != {} then Some(now + 10) else Some(now + 300)
  {
    var e1 := e.(state := CheckTimeout(e.state, now), timer := None);
    TransmitTimes(e1, now, failures);
    var sent := Transmitted(e1, now, failures);
    if sent.end.waiting != [] {
      TransmitTimes(Enqueued(sent.end), now, failures');
    }
  }

  lemma TransmitTimes(e: SendingEnd, now: int, failures: nat)
    ensures var o := Transmitted(e, now, failures);
      o.end.timer == Earlier(e.timer, if o.flights != {} then now + 10 else now + 300)
  {
  }

  /** What a tick of a connected socket does to its sending half can happen in the stream that it sends,
      whatever the receiving half and the session ask of the timer that they share. */
  lemma SocketTickOfSender(s: Stream, failures: nat, failures': nat, later: Option<int>, deadline: Option<int>)
    returns (events: seq<Event>)
    requires Inv(s) && IsExpired(s.sender.timer, s.now)
    ensures var o := SendingEnds.HandleTick(s.sender, s.now, failures, failures');
      && CanPlay(s, events)
      && Play(s, events) ==
           SenderDoes(s, o.(end := o.end.(timer := Soonest(Soonest(o.end.timer, later), deadline))))
  {
    var tick := Tick(failures, failures');
    PlayOne(s, tick);
    var s1 := Apply(s, tick);
    SenderRetimed(s1, later);
    var s2 := Play(s1, EarlierEvents(later));
    SenderRetimed(s2, deadline);
    PlayAppend(s1, EarlierEvents(later), EarlierEvents(deadline));
    PlayAppend(s, [tick], EarlierEvents(later) + EarlierEvents(deadline));
    events := [tick] + (EarlierEvents(later) + EarlierEvents(deadline));
  }

  lemma ReceiverTicksAndReads(s: Stream, next: int, statistics: LinkStatistics, room: nat)
    requires Inv(s)
    ensures var r := AckAdded(s.receiver, s.now, statistics);
      Apply(s, ReceiverTick(next, statistics)) == ReceiverDoes(s, Reply(r.end.(timer := Soonest(Some(next), AckDeadline(r.end.state.acks))), r.acks))
    ensures var r := AckAdded(s.receiver, s.now, statistics); var s1 := Apply(s, ReceiverTick(next, statistics));
      ReadOut(s1.receiver, room) == ReadOut(r.end, room).(timer := Soonest(Some(next), AckDeadline(r.end.state.acks)))
  {
    Sockets.ReceiverTickTimes(s.receiver, Some(next), s.now, statistics, room);
  }

  lemma ReadsAndRetimes(s: Stream, room: nat, deadline: Option<int>) returns (events: seq<Event>)
    requires Inv(s)
    ensures CanPlay(s, events) && Inv(Play(s, events))
    ensures Play(s, events) == s.(receiver := ReadOut(s.receiver, room).(timer := Soonest(s.receiver.timer, deadline)))
  {
    var read := Read(room);
    PlayOne(s, read);
    ReceiverRetimed(Apply(s, read), deadline);
    PlayAppend(s, [read], ReceiverEarlierEvents(deadline));
    events := [read] + ReceiverEarlierEvents(deadline);
  }

  /** What the same tick does to its receiving half, and the read that follows it, can happen in the stream
      that it receives. */
  lemma SocketTickOfReceiver(s: Stream, next: int, statistics: LinkStatistics, room: nat, deadline: Option<int>)
    returns (events: seq<Event>)
    requires Inv(s) && IsExpired(s.receiver.timer, s.now)
    requires next == s.now + SEND_DELAY || next == s.now + SEND_TIMEOUT
    ensures var r := AckAdded(s.receiver, s.now, statistics);
      && CanPlay(s, events)
      && Play(s, events) ==
           ReceiverDoes(s, Reply(ReadOut(r.end, room).(timer := Soonest(Soonest(Some(next), AckDeadline(r.end.state.acks)), deadline)), r.acks))
  {
    var tick := ReceiverTick(next, statistics);
    PlayOne(s, tick);
    ReceiverTicksAndReads(s, next, statistics, room);
    var more := ReadsAndRetimes(Apply(s, tick), room, deadline);
    PlayAppend(s, [tick], more);
    events := [tick] + more;
  }

  // ---- One socket, two streams ----

  /** The stream that a socket sends and the one that it receives. */
  datatype Duplex = Duplex(outgoing: Stream, incoming: Stream) {
    /** Both streams are as they can be, and the two halves share one clock and one timer. */
    ghost predicate Valid() {
      Inv(outgoing) && Inv(incoming) && outgoing.now == incoming.now && outgoing.sender.timer == incoming.receiver.timer
    }

    /** After a handler that leaves the halves as e and r and puts packets into the networks. */
    ghost function Did(e: SendingEnd, flights: set<DataFlight>, r: ReceivingEnd, acks: set<AckFlight>): Duplex {
      Duplex(SenderDoes(outgoing, Output(e, flights)), ReceiverDoes(incoming, Reply(r, acks)))
    }

    /** After the answer to an ack has been sent. */
    ghost function Answers(index: nat): Duplex {
      var network := outgoing.network;
      this.(outgoing := outgoing.(network := network.(acksOfAcks := network.acksOfAcks + {index})))
    }
  }

  /** The events can happen in the two streams and lead from d to d'. */
  ghost predicate Leads(d: Duplex, a: seq<Event>, b: seq<Event>, d': Duplex) {
    && CanPlay(d.outgoing, a) && Play(d.outgoing, a) == d'.outgoing
    && CanPlay(d.incoming, b) && Play(d.incoming, b) == d'.incoming
    && d'.Valid()
  }

  lemma Joined(d: Duplex, a: seq<Event>, b: seq<Event>, o: Output, reply: Reply)
    requires d.Valid() && CanPlay(d.outgoing, a) && CanPlay(d.incoming, b) && o.end.timer == reply.end.timer
    requires Play(d.outgoing, a) == SenderDoes(d.outgoing, o) && Play(d.incoming, b) == ReceiverDoes(d.incoming, reply)
    ensures Leads(d, a, b, d.Did(o.end, o.flights, reply.end, reply.acks))
  {
    PlayKeepsInv(d.outgoing, a);
    PlayKeepsInv(d.incoming, b);
  }

  /** A timer that has moved to an earlier time, or not at all. */
  predicate MovedEarlier(timer: Option<int>, timer': Option<int>) {
    timer.Some? && timer'.Some? && timer'.value <= timer.value
  }

  lemma WriteMovesEarlier(e: SendingEnd, now: int, failures: nat)
    requires e.state.Valid() && e.timer.Some?
    ensures MovedEarlier(e.timer, ProcessWrite(e, now, failures).end.timer)
  {
  }

  lemma AckMovesEarlier(e: SendingEnd, packet: AckPacket, now: int, failures: nat, failures': nat)
    requires e.state.Valid() && e.timer.Some?
    ensures MovedEarlier(e.timer, SendingEnds.HandleAck(e, packet, now, failures, failures').end.timer)
  {
    WriteMovesEarlier(SentAfterAck(e, packet, now, failures).end, now, failures');
  }

  lemma DataMovesEarlier(e: ReceivingEnd, f: DataFlight, now: int, statistics: LinkStatistics)
    requires e.state.Valid() && e.timer.Some?
    ensures MovedEarlier(e.timer, ReceivingEnds.HandleData(e, f, now, statistics).end.timer)
  {
  }

  // ---- The handlers ----

  /** A tick, in the terms of the socket's contract: `deadline` is what the session asks of the timer. */
  lemma TickIsRun(d: Duplex, failures: nat, failures': nat, statistics: LinkStatistics, room: nat, deadline: Option<int>)
    returns (a: seq<Event>, b: seq<Event>)
    requires d.Valid() && IsExpired(d.outgoing.sender.timer, d.outgoing.now)
    ensures var now := d.outgoing.now;
      var o := SendingEnds.HandleTick(d.outgoing.sender, now, failures, failures');
      var r := AckAdded(d.incoming.receiver, now, statistics);
      var expiry := Soonest(Soonest(o.end.timer, AckDeadline(r.end.state.acks)), deadline);
      Leads(d, a, b, d.Did(o.end.(timer := expiry), o.flights, ReadOut(r.end, room).(timer := expiry), r.acks))
  {
    var now := d.outgoing.now;
    var o := SendingEnds.HandleTick(d.outgoing.sender, now, failures, failures');
    var later := AckDeadline(AckAdded(d.incoming.receiver, now, statistics).end.state.acks);
    NextTickIs(d.outgoing.sender, now, failures, failures');
    a := SocketTickOfSender(d.outgoing, failures, failures', later, deadline);
    b := SocketTickOfReceiver(d.incoming, o.end.timer.value, statistics, room, deadline);
    var r := AckAdded(d.incoming.receiver, now, statistics);
    var expiry := Soonest(Soonest(o.end.timer, later), deadline);
    Joined(d, a, b, Output(o.end.(timer := expiry), o.flights), Reply(ReadOut(r.end, room).(timer := expiry), r.acks));
  }

  lemma NothingNewSent(s: Stream, e: SendingEnd, r: ReceivingEnd)
    ensures SenderDoes(s, Output(e, {})) == s.(sender := e)
    ensures ReceiverDoes(s, Reply(r, {})) == s.(receiver := r)
  {
    assert s.network.data + {} == s.network.data && s.network.acks + {} == s.network.acks;
  }

  lemma SoonestOfMoved(timer: Option<int>, timer': Option<int>)
    requires MovedEarlier(timer, timer')
    ensures Soonest(timer, timer') == timer'
  {
  }

  /** The incoming half reads and takes over a timer that has moved earlier. */
  lemma ReadsAndFollows(s: Stream, room: nat, timer: Option<int>) returns (events: seq<Event>)
    requires Inv(s) && MovedEarlier(s.receiver.timer, timer)
    ensures CanPlay(s, events) && Inv(Play(s, events))
    ensures Play(s, events) == ReceiverDoes(s, Reply(ReadOut(s.receiver, room).(timer := timer), {}))
  {
    SoonestOfMoved(s.receiver.timer, timer);
    events := ReadsAndRetimes(s, room, timer);
    NothingNewSent(s, s.sender, ReadOut(s.receiver, room).(timer := timer));
  }

  /** The incoming half takes over a timer that has moved earlier. */
  lemma Follows(s: Stream, timer: Option<int>) returns (events: seq<Event>)
    requires Inv(s) && MovedEarlier(s.receiver.timer, timer)
    ensures CanPlay(s, events) && Play(s, events) == ReceiverDoes(s, Reply(s.receiver.(timer := timer), {}))
  {
    ReceiverRetimed(s, timer);
    events := ReceiverEarlierEvents(timer);
    NothingNewSent(s, s.sender, s.receiver.(timer := timer));
  }

  /** An ack in the network of the outgoing stream, apart from the answer that it gets. */
  lemma AckIsRun(d: Duplex, f: AckFlight, failures: nat, failures': nat, room: nat) returns (a: seq<Event>, b: seq<Event>)
    requires d.Valid() && Enabled(d.outgoing, DeliverAck(f, failures, failures'))
    ensures var o := SendingEnds.HandleAck(d.outgoing.sender, f.packet, d.outgoing.now, failures, failures');
      Leads(d, a, b, d.Did(o.end, o.flights, ReadOut(d.incoming.receiver, room).(timer := o.end.timer), {}).Answers(f.index))
  {
    var deliver := DeliverAck(f, failures, failures');
    var o := SendingEnds.HandleAck(d.outgoing.sender, f.packet, d.outgoing.now, failures, failures');
    AckMovesEarlier(d.outgoing.sender, f.packet, d.outgoing.now, failures, failures');
    PlayOne(d.outgoing, deliver);
    a := [deliver];
    b := ReadsAndFollows(d.incoming, room, o.end.timer);
  }

  /** Before it goes on with the write, the outgoing half takes over the timer. */
  lemma RetimesAndWrites(s: Stream, time: Option<int>, failures: nat) returns (events: seq<Event>)
    requires Inv(s)
    ensures CanPlay(s, events)
    ensures Play(s, events) ==
      SenderDoes(s, ProcessWrite(s.sender.(timer := Soonest(s.sender.timer, time)), s.now, failures))
  {
    SenderRetimed(s, time);
    var s1 := Play(s, EarlierEvents(time));
    PlayOne(s1, ContinueWrite(failures));
    PlayAppend(s, EarlierEvents(time), [ContinueWrite(failures)]);
    events := EarlierEvents(time) + [ContinueWrite(failures)];
  }

  lemma DataThenRead(s: Stream, f: DataFlight, statistics: LinkStatistics, room: nat, timer: Option<int>)
    returns (events: seq<Event>)
    requires Inv(s) && Enabled(s, DeliverData(f, statistics))
    requires MovedEarlier(ReceivingEnds.HandleData(s.receiver, f, s.now, statistics).end.timer, timer)
    ensures CanPlay(s, events)
    ensures var r := ReceivingEnds.HandleData(s.receiver, f, s.now, statistics);
      Play(s, events) == ReceiverDoes(s, Reply(ReadOut(r.end, room).(timer := timer), r.acks))
  {
    var deliver := DeliverData(f, statistics);
    PlayOne(s, deliver);
    var r := ReceivingEnds.HandleData(s.receiver, f, s.now, statistics);
    var more := ReadsAndFollows(ReceiverDoes(s, r), room, timer);
    PlayAppend(s, [deliver], more);
    TwoReplies(s, r, ReadOut(r.end, room).(timer := timer));
    events := [deliver] + more;
  }

  lemma TwoReplies(s: Stream, reply: Reply, r: ReceivingEnd)
    ensures ReceiverDoes(ReceiverDoes(s, reply), Reply(r, {})) == ReceiverDoes(s, Reply(r, reply.acks))
  {
    assert (s.network.acks + reply.acks) + {} == s.network.acks + reply.acks;
  }

  lemma ReadsAfterData(e: SendingEnd, s: Stream, f: DataFlight, failures: nat, statistics: LinkStatistics, room: nat)
    returns (b: seq<Event>)
    requires e.state.Valid() && Inv(s) && Enabled(s, DeliverData(f, statistics))
    ensures CanPlay(s, b)
    ensures var r := ReceivingEnds.HandleData(s.receiver, f, s.now, statistics);
      var timer := ProcessWrite(e.(timer := r.end.timer), s.now, failures).end.timer;
      Play(s, b) == ReceiverDoes(s, Reply(ReadOut(r.end, room).(timer := timer), r.acks))
  {
    var timer := ReceivingEnds.HandleData(s.receiver, f, s.now, statistics).end.timer;
    DataMovesEarlier(s.receiver, f, s.now, statistics);
    WriteMovesEarlier(e.(timer := timer), s.now, failures);
    b := DataThenRead(s, f, statistics, room, ProcessWrite(e.(timer := timer), s.now, failures).end.timer);
  }

  /** The timer after data has been received is not later than before. */
  lemma WritesAfterData(s: Stream, r: ReceivingEnd, f: DataFlight, now: int, statistics: LinkStatistics, failures: nat)
    returns (a: seq<Event>)
    requires Inv(s) && s.now == now && r.state.Valid() && s.sender.timer == r.timer
    ensures CanPlay(s, a)
    ensures var timer := ReceivingEnds.HandleData(r, f, now, statistics).end.timer;
      Play(s, a) == SenderDoes(s, ProcessWrite(s.sender.(timer := timer), now, failures))
  {
    var timer := ReceivingEnds.HandleData(r, f, now, statistics).end.timer;
    DataMovesEarlier(r, f, now, statistics);
    SoonestOfMoved(s.sender.timer, timer);
    a := RetimesAndWrites(s, timer, failures);
  }

  /** A data packet in the network of the incoming stream. */
  lemma DataIsRun(d: Duplex, f: DataFlight, failures: nat, statistics: LinkStatistics, room: nat)
    returns (a: seq<Event>, b: seq<Event>)
    requires d.Valid() && Enabled(d.incoming, DeliverData(f, statistics))
    ensures var now := d.incoming.now;
      var r := ReceivingEnds.HandleData(d.incoming.receiver, f, now, statistics);
      var o := ProcessWrite(d.outgoing.sender.(timer := r.end.timer), now, failures);
      Leads(d, a, b, d.Did(o.end, o.flights, ReadOut(r.end, room).(timer := o.end.timer), r.acks))
  {
    var now := d.incoming.now;
    var r := ReceivingEnds.HandleData(d.incoming.receiver, f, now, statistics);
    var o := ProcessWrite(d.outgoing.sender.(timer := r.end.timer), now, failures);
    a := WritesAfterData(d.outgoing, d.incoming.receiver, f, now, statistics, failures);
    b := ReadsAfterData(d.outgoing.sender, d.incoming, f, failures, statistics, room);
    Joined(d, a, b, o, Reply(ReadOut(r.end, room).(timer := o.end.timer), r.acks));
  }

  lemma AckOfAckThenRead(s: Stream, index: nat, room: nat, timer: Option<int>) returns (events: seq<Event>)
    requires Inv(s) && Enabled(s, DeliverAckOfAck(index)) && MovedEarlier(s.receiver.timer, timer)
    ensures CanPlay(s, events)
    ensures var r := AckOfAck(s.receiver, Wire(s.ackBase + index));
      Play(s, events) == ReceiverDoes(s, Reply(ReadOut(r, room).(timer := timer), {}))
  {
    var deliver := DeliverAckOfAck(index);
    var r := AckOfAck(s.receiver, Wire(s.ackBase + index));
    PlayOne(s, deliver);
    AckOfAckApplied(s, index);
    AckOfAckLeaves(s.receiver, Wire(s.ackBase + index));
    NothingNewSent(s, s.sender, r);
    var more := ReadsAndFollows(s.(receiver := r), room, timer);
    PlayAppend(s, [deliver], more);
    TwoReplies(s, Reply(r, {}), ReadOut(r, room).(timer := timer));
    events := [deliver] + more;
  }

  /** The outgoing half goes on with its write. */
  lemma WritesOn(s: Stream, failures: nat)
    requires Inv(s)
    ensures CanPlay(s, [ContinueWrite(failures)])
    ensures Play(s, [ContinueWrite(failures)]) == SenderDoes(s, ProcessWrite(s.sender, s.now, failures))
    ensures MovedEarlier(s.sender.timer, ProcessWrite(s.sender, s.now, failures).end.timer)
  {
    PlayOne(s, ContinueWrite(failures));
    WriteMovesEarlier(s.sender, s.now, failures);
  }

  lemma WritesWhile(d: Duplex, b: seq<Event>, r: ReceivingEnd, failures: nat) returns (a: seq<Event>)
    requires d.Valid() && CanPlay(d.incoming, b)
    requires var o := ProcessWrite(d.outgoing.sender, d.outgoing.now, failures);
      Play(d.incoming, b) == ReceiverDoes(d.incoming, Reply(r.(timer := o.end.timer), {}))
    ensures var o := ProcessWrite(d.outgoing.sender, d.outgoing.now, failures);
      Leads(d, a, b, d.Did(o.end, o.flights, r.(timer := o.end.timer), {}))
  {
    var o := ProcessWrite(d.outgoing.sender, d.outgoing.now, failures);
    WritesOn(d.outgoing, failures);
    a := [ContinueWrite(failures)];
    Joined(d, a, b, o, Reply(r.(timer := o.end.timer), {}));
  }

  lemma ReadsAfterAckOfAck(e: SendingEnd, s: Stream, index: nat, failures: nat, room: nat) returns (b: seq<Event>)
    requires e.state.Valid() && e.timer == s.receiver.timer && Inv(s) && Enabled(s, DeliverAckOfAck(index))
    ensures CanPlay(s, b)
    ensures var timer := ProcessWrite(e, s.now, failures).end.timer;
      var r := AckOfAck(s.receiver, Wire(s.ackBase + index));
      Play(s, b) == ReceiverDoes(s, Reply(ReadOut(r, room).(timer := timer), {}))
  {
    var timer := ProcessWrite(e, s.now, failures).end.timer;
    WriteMovesEarlier(e, s.now, failures);
    b := AckOfAckThenRead(s, index, room, timer);
  }

  /** An ack-of-ack in the network of the incoming stream. */
  lemma AckOfAckIsRun(d: Duplex, index: nat, failures: nat, room: nat) returns (a: seq<Event>, b: seq<Event>)
    requires d.Valid() && Enabled(d.incoming, DeliverAckOfAck(index))
    ensures var o := ProcessWrite(d.outgoing.sender, d.outgoing.now, failures);
      var r := AckOfAck(d.incoming.receiver, Wire(d.incoming.ackBase + index));
      Leads(d, a, b, d.Did(o.end, o.flights, ReadOut(r, room).(timer := o.end.timer), {}))
  {
    b := ReadsAfterAckOfAck(d.outgoing.sender, d.incoming, index, failures, room);
    a := WritesWhile(d, b, ReadOut(AckOfAck(d.incoming.receiver, Wire(d.incoming.ackBase + index)), room), failures);
  }

  /** A negative ack, which may list anything. */
  lemma NegativeAckIsRun(d: Duplex, packet: NegativeAckPacket, failures: nat) returns (a: seq<Event>, b: seq<Event>)
    requires d.Valid()
    ensures var o := SendingEnds.HandleNegativeAck(d.outgoing.sender, packet, d.outgoing.now, failures);
      Leads(d, a, b, d.Did(o.end, o.flights, d.incoming.receiver.(timer := o.end.timer), {}))
  {
    var o := SendingEnds.HandleNegativeAck(d.outgoing.sender, packet, d.outgoing.now, failures);
    PlayOne(d.outgoing, DeliverNegativeAck(packet, failures));
    a := [DeliverNegativeAck(packet, failures)];
    b := Follows(d.incoming, o.end.timer);
    Joined(d, a, b, o, Reply(d.incoming.receiver.(timer := o.end.timer), {}));
  }

  /** A write of some bytes when none is waiting. */
  lemma WriteIsRun(d: Duplex, data: seq<Byte>, failures: nat) returns (a: seq<Event>, b: seq<Event>)
    requires d.Valid() && d.outgoing.sender.waiting == [] && data != []
    ensures var o := StartWrite(d.outgoing.sender, data, d.outgoing.now, failures);
      Leads(d, a, b, d.Did(o.end, o.flights, d.incoming.receiver.(timer := o.end.timer), {}))
  {
    var o := StartWrite(d.outgoing.sender, data, d.outgoing.now, failures);
    WriteMovesEarlier(NewMessage(d.outgoing.sender, data), d.outgoing.now, failures);
    PlayOne(d.outgoing, Write(data, failures));
    a := [Write(data, failures)];
    b := Follows(d.incoming, o.end.timer);
    Joined(d, a, b, o, Reply(d.incoming.receiver.(timer := o.end.timer), {}));
  }

  /** A read of any size. */
  lemma ReadIsRun(d: Duplex, size: nat) returns (a: seq<Event>, b: seq<Event>)
    requires d.Valid()
    ensures Leads(d, a, b, d.Did(d.outgoing.sender, {}, ReadOut(d.incoming.receiver, size), {}))
  {
    a := [];
    PlayOne(d.incoming, Read(size));
    b := [Read(size)];
    NothingNewSent(d.incoming, d.incoming.sender, ReadOut(d.incoming.receiver, size));
    NothingNewSent(d.outgoing, d.outgoing.sender, d.outgoing.receiver);
    Joined(d, a, b, Output(d.outgoing.sender, {}), Reply(ReadOut(d.incoming.receiver, size), {}));
  }

  /** A handshake packet that finds the session connected: at most it asks for an earlier tick. */
  lemma HandshakeIsRun(d: Duplex, deadline: Option<int>) returns (a: seq<Event>, b: seq<Event>)
    requires d.Valid()
    ensures var timer := Soonest(d.outgoing.sender.timer, deadline);
      Leads(d, a, b, d.Did(d.outgoing.sender.(timer := timer), {}, d.incoming.receiver.(timer := timer), {}))
  {
    var timer := Soonest(d.outgoing.sender.timer, deadline);
    var e, r := d.outgoing.sender.(timer := timer), d.incoming.receiver.(timer := timer);
    SenderRetimed(d.outgoing, deadline);
    ReceiverRetimed(d.incoming, deadline);
    a, b := EarlierEvents(deadline), ReceiverEarlierEvents(deadline);
    NothingNewSent(d.outgoing, e, d.outgoing.receiver);
    NothingNewSent(d.incoming, d.incoming.sender, r);
    Joined(d, a, b, Output(e, {}), Reply(r, {}));
  }
}
