/** When the receiver's ack window can run empty, which is its part in a flush. */
module AckWindows {
  import opened SequenceNumbers
  import opened SlidingWindows
  import opened Packets
  import opened Runs
  import opened CongestionControls
  import opened AckRanges
  import opened TickTimers
  import opened SenderSpec
  import opened ReceiverSpec
  import opened SendingEnds
  import opened ReceivingEnds
  import opened Streams
  import opened StreamTheorems

  predicate AcksEmpty(s: Stream) { s.receiver.state.acks.items == [] }

  /** The latest ack or its ack-of-ack is still in the network and young enough to be delivered. */
  ghost predicate LatestAckAlive(s: Stream) {
    var records := s.receiver.records;
    && records != []
    && Young(records[|records| - 1].Content(), |s.sender.log|)
    && (|records| - 1 in s.network.acksOfAcks || exists f :: f in s.network.acks && f.index + 1 == |records|)
  }

  /** Only an idle stream, with acks in its window of which the latest one is lost, cannot empty it. */
  ghost predicate CanEmptyAcks(s: Stream) {
    !Idle(s) || AcksEmpty(s) || LatestAckAlive(s)
  }

  // ---- An idle stream ----

  /** A sender with nothing to send and nothing to write. */
  predicate AtRest(e: SendingEnd) { e.state.window.items == [] && e.waiting == [] }

  ghost predicate StaysAtRest(e: SendingEnd, e': SendingEnd) {
    AtRest(e') && e'.log == e.log && e'.submitted == e.submitted
  }

  lemma SenderStaysAtRest(e: SendingEnd, event: Event, now: int)
    requires AtRest(e) && e.state.Valid()
    ensures event.ContinueWrite? ==> StaysAtRest(e, ProcessWrite(e, now, event.failures).end)
    ensures event.Tick? ==> StaysAtRest(e, SendingEnds.HandleTick(e, now, event.failures, event.failures').end)
    ensures event.DeliverAck? ==>
      StaysAtRest(e, SendingEnds.HandleAck(e, event.ack.packet, now, event.failures, event.failures').end)
    ensures event.DeliverNegativeAck? ==>
      StaysAtRest(e, SendingEnds.HandleNegativeAck(e, event.negative, now, event.failures).end)
  {
  }

  /** The parts of the receiving end that decide about acks. */
  ghost predicate SameBook(e: ReceivingEnd, e': ReceivingEnd) {
    && e'.stored == e.stored && e'.records == e.records && e'.ackLow == e.ackLow && e'.confirmed == e.confirmed
    && e'.state.acks == e.state.acks && e'.state.received == e.state.received
  }

  /** With nothing unconfirmed there is nothing to acknowledge. */
  lemma NothingToAcknowledge(e: ReceivingEnd, now: int, statistics: LinkStatistics)
    requires e.state.unread.Valid() && e.state.received == {}
    ensures var reply := Ticked(e, now, statistics);
      SameBook(e, reply.end) && reply.acks == {}
  {
    RunsAreExact({});
  }

  lemma StoringLeaves(e: ReceivingEnd, f: DataFlight)
    ensures var e' := Stored(e, f);
      e'.records == e.records && e'.ackLow == e.ackLow && e'.confirmed == e.confirmed && e'.state.acks == e.state.acks
  {
  }

  lemma StoredAlready(e: ReceivingEnd, f: DataFlight, base: nat, log: seq<DataPacket>)
    requires UnreadValid(e.state.unread, base, log, e.stored, e.consumed, e.delivered) && Numbered(log, base)
    requires Arrives(e, f.index, log) && f.packet == log[f.index] && f.index in e.stored
    ensures var e' := Stored(e, f);
      e'.stored == e.stored && e'.state.received == e.state.received && e'.state.unread.Valid()
  {
    var w, k := Reserved(e, Wire(base + f.index)), f.index - e.consumed;
    StoredIs(e, f, base, log);
    if 0 <= k < |w.items| {
      assert Slot(w.items[k], log[e.consumed + k], (e.consumed + k) in e.stored);
    }
  }

  /** A packet that is already stored changes nothing that matters for acks. */
  lemma StoredAgain(e: ReceivingEnd, f: DataFlight, now: int, statistics: LinkStatistics, base: nat, log: seq<DataPacket>)
    requires UnreadValid(e.state.unread, base, log, e.stored, e.consumed, e.delivered) && e.state.Valid()
    requires Arrives(e, f.index, log) && f.packet == log[f.index] && f.index in e.stored
    requires Numbered(log, base) && e.state.received == {}
    ensures var reply := ReceivingEnds.HandleData(e, f, now, statistics);
      SameBook(e, reply.end) && reply.acks == {}
  {
    StoringLeaves(e, f);
    StoredAlready(e, f, base, log);
    NothingToAcknowledge(Stored(e, f), now, statistics);
  }

  // ---- A stranded stream stays stranded ----

  ghost predicate Stranded(s: Stream) { Inv(s) && !CanEmptyAcks(s) }

  /** What keeps a stream stranded: the same log and books, and no new sign of the latest ack. */
  lemma StillStranded(s: Stream, s': Stream)
    requires !CanEmptyAcks(s)
    requires s'.sender.state.window.items == [] && s'.sender.log == s.sender.log && SameBook(s.receiver, s'.receiver)
    requires s'.network.acks <= s.network.acks
    requires |s.receiver.records| - 1 in s'.network.acksOfAcks ==> |s.receiver.records| - 1 in s.network.acksOfAcks
    ensures !CanEmptyAcks(s')
  {
  }

  lemma HasRecords(s: Stream)
    requires Stranded(s)
    ensures s.receiver.records != [] && s.receiver.state.received == {} && AtRest(s.sender)
    ensures s.receiver.ackLow < |s.receiver.records|
  {
    EverythingStored(s);
    assert BookValid(s.receiver, s.base, s.ackBase);
    assert Nums(s.base, {}) == {};
  }

  lemma RestingSender(s: Stream, event: Event)
    requires !CanEmptyAcks(s) && AtRest(s.sender) && StatesValid(s) && Enabled(s, event) && s.receiver.records != []
    requires event.ContinueWrite? || event.Tick? || event.DeliverAck? || event.DeliverNegativeAck?
    ensures !CanEmptyAcks(Apply(s, event))
  {
    SenderStaysAtRest(s.sender, event, s.now);
    StillStranded(s, Apply(s, event));
  }

  lemma StrandedSender(s: Stream, event: Event)
    requires Stranded(s) && Enabled(s, event)
    requires event.ContinueWrite? || event.Tick? || event.DeliverAck? || event.DeliverNegativeAck?
    ensures Stranded(Apply(s, event))
  {
    HasRecords(s);
    StepKeepsInv(s, event);
    RestingSender(s, event);
  }

  lemma StrandedData(s: Stream, f: DataFlight, statistics: LinkStatistics)
    requires Stranded(s) && Enabled(s, DeliverData(f, statistics))
    ensures Stranded(Apply(s, DeliverData(f, statistics)))
  {
    HasRecords(s);
    StepKeepsInv(s, DeliverData(f, statistics));
    EverythingStored(s);
    Alignment(s);
    assert FlightValid(f, s.sender.log);
    StoredAgain(s.receiver, f, s.now, statistics, s.base, s.sender.log);
    StillStranded(s, Apply(s, DeliverData(f, statistics)));
  }

  lemma StrandedReceiver(s: Stream, event: Event)
    requires Stranded(s) && Enabled(s, event)
    requires event.ReceiverTick? || event.Read? || event.ReceiverTickEarlier?
    ensures Stranded(Apply(s, event))
  {
    HasRecords(s);
    StepKeepsInv(s, event);
    if event.ReceiverTick? {
      NothingToAcknowledge(s.receiver.(timer := Some(event.next)), s.now, event.statistics);
    }
    StillStranded(s, Apply(s, event));
  }

  /** With nothing unconfirmed, an ack-of-ack only drops acks from the window. */
  lemma ConfirmedAgain(r: ReceivingEnd, a: nat, base: nat, ackBase: nat)
    requires BookValid(r, base, ackBase) && |r.state.acks.items| <= MAXIMUM_WINDOW_SIZE && r.stored - r.confirmed == {}
    requires r.ackLow <= a < |r.records| < a + LIFETIME
    ensures var r' := AckOfAck(r, Wire(ackBase + a));
      && r'.confirmed == r.confirmed && r'.stored == r.stored && r'.records == r.records
      && |r'.state.acks.items| == |r.records| - (a + 1)
  {
    AckOfAckErases(r, a, base, ackBase);
    assert AckCurrent(r.records[a], r.confirmed) && RecordValid(r.records[a], r.stored);
    forall j | j in r.stored ensures j in r.confirmed {
      assert j !in r.stored - r.confirmed;
    }
  }

  lemma GoneAlready(r: ReceivingEnd, a: nat, ackBase: nat)
    requires r.state.acks.begin == Wire(ackBase + r.ackLow) && r.ackLow + |r.state.acks.items| == |r.records|
    requires |r.state.acks.items| <= MAXIMUM_WINDOW_SIZE && a < r.ackLow && |r.records| < a + LIFETIME
    ensures AckOfAck(r, Wire(ackBase + a)) == r
  {
    ContainsIndex(r.state.acks, ackBase, r.ackLow, a);
  }

  lemma OnlyOlder(s: Stream, a: nat)
    requires !CanEmptyAcks(s) && Enabled(s, DeliverAckOfAck(a)) && s.receiver.ackLow <= a
    ensures a + 1 < |s.receiver.records|
  {
  }

  /** An ack-of-ack for an older ack leaves the latest one in the window. */
  lemma OlderAckOfAck(r: ReceivingEnd, a: nat, base: nat, ackBase: nat)
    requires BookValid(r, base, ackBase) && |r.state.acks.items| <= MAXIMUM_WINDOW_SIZE && r.stored - r.confirmed == {}
    requires a < |r.records| < a + LIFETIME && r.state.acks.items != [] && (r.ackLow <= a ==> a + 1 < |r.records|)
    ensures var r' := AckOfAck(r, Wire(ackBase + a));
      r'.confirmed == r.confirmed && r'.stored == r.stored && r'.records == r.records && r'.state.acks.items != []
  {
    if r.ackLow <= a {
      ConfirmedAgain(r, a, base, ackBase);
    } else {
      GoneAlready(r, a, ackBase);
    }
  }

  lemma StillCannot(s: Stream, r: ReceivingEnd)
    requires !CanEmptyAcks(s)
    requires r.confirmed == s.receiver.confirmed && r.stored == s.receiver.stored && r.records == s.receiver.records
    requires r.state.acks.items != []
    ensures !CanEmptyAcks(s.(receiver := r))
  {
  }

  lemma CannotAfterAckOfAck(s: Stream, a: nat)
    requires !CanEmptyAcks(s) && Enabled(s, DeliverAckOfAck(a))
    requires BookValid(s.receiver, s.base, s.ackBase) && |s.receiver.state.acks.items| <= MAXIMUM_WINDOW_SIZE
    ensures !CanEmptyAcks(s.(receiver := AckOfAck(s.receiver, Wire(s.ackBase + a))))
  {
    if s.receiver.ackLow <= a {
      OnlyOlder(s, a);
    }
    OlderAckOfAck(s.receiver, a, s.base, s.ackBase);
    StillCannot(s, AckOfAck(s.receiver, Wire(s.ackBase + a)));
  }

  lemma StrandedAckOfAck(s: Stream, a: nat)
    requires Stranded(s) && Enabled(s, DeliverAckOfAck(a))
    ensures Stranded(Apply(s, DeliverAckOfAck(a)))
  {
    ConfirmedStep(s, a);
    CannotAfterAckOfAck(s, a);
    AckOfAckApplied(s, a);
  }

  lemma StrandedStep(s: Stream, event: Event)
    requires Stranded(s) && Enabled(s, event) && !event.Write?
    ensures Stranded(Apply(s, event))
  {
    match event
    case DeliverData(f, statistics) => StrandedData(s, f, statistics);
    case DeliverAckOfAck(a) => StrandedAckOfAck(s, a);
    case ReceiverTick(_, _) => StrandedReceiver(s, event);
    case Read(_) => StrandedReceiver(s, event);
    case ReceiverTickEarlier(_) => StrandedReceiver(s, event);
    case Lose(_) =>
      StepKeepsInv(s, event);
      StillStranded(s, Apply(s, event));
    case Wait(_) =>
      StepKeepsInv(s, event);
      StillStranded(s, Apply(s, event));
    case TickEarlier(_) =>
      StepKeepsInv(s, event);
      StillStranded(s, Apply(s, event));
    case _ => StrandedSender(s, event);
  }

  lemma {:induction false} StrandedForever(s: Stream, events: seq<Event>)
    requires Stranded(s) && CanPlay(s, events) && NoWrites(events)
    ensures Stranded(Play(s, events))
    decreases |events|
  {
    if events != [] {
      StrandedStep(s, events[0]);
      assert forall i :: 0 <= i < |events[1..]| ==> events[1..][i] == events[i + 1];
      StrandedForever(Apply(s, events[0]), events[1..]);
    }
  }

  // ---- Any other stream can empty its ack window ----

  lemma LatestAckEnabled(s: Stream) returns (f: AckFlight)
    requires LatestAckAlive(s) && |s.receiver.records| - 1 !in s.network.acksOfAcks
    ensures Enabled(s, DeliverAck(f, 0, 0)) && f.index + 1 == |s.receiver.records|
  {
    f :| f in s.network.acks && f.index + 1 == |s.receiver.records|;
  }

  lemma LatestAckDelivered(s: Stream, f: AckFlight)
    requires Inv(s) && AtRest(s.sender) && Enabled(s, DeliverAck(f, 0, 0))
    ensures var s' := Apply(s, DeliverAck(f, 0, 0));
      && StaysAtRest(s.sender, s'.sender) && s'.receiver == s.receiver && f.index in s'.network.acksOfAcks
      && CanGoOn(s, [DeliverAck(f, 0, 0)]) && GoneOn(s, [DeliverAck(f, 0, 0)]) == s' && Inv(s')
  {
    GoOnOne(s, DeliverAck(f, 0, 0));
    SenderStaysAtRest(s.sender, DeliverAck(f, 0, 0), s.now);
  }

  /** The latest ack of an idle stream can be delivered, if its ack-of-ack is not on the way already. */
  lemma LatestAckAnswered(s: Stream) returns (events: seq<Event>)
    requires Inv(s) && Idle(s) && LatestAckAlive(s)
    ensures CanGoOn(s, events)
    ensures var s' := GoneOn(s, events);
      && Inv(s') && (s' == s || StaysAtRest(s.sender, s'.sender))
      && s'.receiver == s.receiver && |s.receiver.records| - 1 in s'.network.acksOfAcks
  {
    if |s.receiver.records| - 1 in s.network.acksOfAcks {
      events := [];
    } else {
      EverythingStored(s);
      var f := LatestAckEnabled(s);
      LatestAckDelivered(s, f);
      events := [DeliverAck(f, 0, 0)];
    }
  }

  lemma IdleAfterwards(s: Stream, a: nat)
    requires StatesValid(s) && s.sender.state.window.items == []
    requires var r' := AckOfAck(s.receiver, Wire(s.ackBase + a)); r'.stored - r'.confirmed == {}
    ensures var s' := Apply(s, DeliverAckOfAck(a));
      && Idle(s') && s'.sender == s.sender
      && (AcksEmpty(s') <==> AckOfAck(s.receiver, Wire(s.ackBase + a)).state.acks.items == [])
  {
    AckOfAckApplied(s, a);
  }

  lemma LatestIsInWindow(s: Stream)
    requires Inv(s) && !AcksEmpty(s)
    ensures BookValid(s.receiver, s.base, s.ackBase) && |s.receiver.state.acks.items| <= MAXIMUM_WINDOW_SIZE
    ensures s.receiver.ackLow < |s.receiver.records| && StatesValid(s)
  {
  }

  lemma LatestAckOfAckEmpties(s: Stream, a: nat)
    requires BookValid(s.receiver, s.base, s.ackBase) && |s.receiver.state.acks.items| <= MAXIMUM_WINDOW_SIZE
    requires StatesValid(s) && Idle(s) && s.receiver.ackLow <= a && a + 1 == |s.receiver.records|
    requires a in s.network.acksOfAcks && Young(s.receiver.records[a].Content(), |s.sender.log|)
    ensures var s' := Apply(s, DeliverAckOfAck(a));
      Enabled(s, DeliverAckOfAck(a)) && AcksEmpty(s') && Idle(s') && s'.sender == s.sender
  {
    ConfirmedAgain(s.receiver, a, s.base, s.ackBase);
    IdleAfterwards(s, a);
  }

  lemma IdleEmpties(s: Stream) returns (events: seq<Event>)
    requires Inv(s) && Idle(s) && CanEmptyAcks(s)
    ensures CanGoOn(s, events)
    ensures var s' := GoneOn(s, events);
      Inv(s') && Idle(s') && AcksEmpty(s') && s'.sender.submitted == s.sender.submitted
  {
    if AcksEmpty(s) {
      events := [];
    } else {
      var answer := LatestAckAnswered(s);
      var s1 := GoneOn(s, answer);
      var settle := DeliverAckOfAck(|s.receiver.records| - 1);
      LatestIsInWindow(s1);
      LatestAckOfAckEmpties(s1, settle.index);
      GoOnOne(s1, settle);
      GoOnAppend(s, answer, [settle]);
      events := answer + [settle];
    }
  }

  /** From every reachable state that can empty its ack window, some finite continuation delivers every byte
      ever written and leaves both halves of a flush done: the sender's window and the ack window empty. */
  lemma EverythingCanBeFlushed(s: Stream, statistics: LinkStatistics) returns (events: seq<Event>)
    requires Reachable(s) && Fresh(s.receiver.stored - s.receiver.confirmed, |s.sender.log|) && CanEmptyAcks(s)
    ensures CanPlay(s, events) && NoWrites(events)
    ensures var s' := Play(s, events);
      && Idle(s') && AcksEmpty(s') && s'.sender.waiting == []
      && s'.receiver.delivered == s'.sender.submitted == s.sender.submitted
  {
    ReachableInv(s);
    var first: seq<Event> := [];
    if Idle(s) {
      first := IdleEmpties(s);
    }
    var s1 := GoneOn(s, first);
    var rest := Arrive(s1, statistics);
    GoOnAppend(s, first, rest);
    events := first + rest;
    GoingOnIsPlaying(s, events);
  }

  /** In every reachable state the ack window can run empty without another write exactly when the stream is
      not idle, or the window is empty, or the latest ack can still be answered. */
  lemma AckWindowCanEmpty(s: Stream, statistics: LinkStatistics)
    requires Reachable(s) && Fresh(s.receiver.stored - s.receiver.confirmed, |s.sender.log|)
    ensures CanEmptyAcks(s) <==> exists events :: CanPlay(s, events) && NoWrites(events) && AcksEmpty(Play(s, events))
  {
    ReachableInv(s);
    if CanEmptyAcks(s) {
      var events := EverythingCanBeFlushed(s, statistics);
    } else {
      forall events | CanPlay(s, events) && NoWrites(events) ensures !AcksEmpty(Play(s, events)) {
        StrandedForever(s, events);
      }
    }
  }

  // ---- A stranded stream is reachable ----

  /** The first write of a stream, of one byte, puts a packet into the window. */
  lemma OneByteIsSent(start: Stream)
    requires Init(start)
    ensures CanPlay(start, [Write([0], 0)])
    ensures var s := Play(start, [Write([0], 0)]);
      && Inv(s) && s.sender.state.window.items != [] && |s.sender.submitted| == 1
      && s.receiver == start.receiver
  {
    InitInv(start);
    PlayOne(start, Write([0], 0));
    var s := Play(start, [Write([0], 0)]);
    if s.sender.state.window.items == [] {
      EverythingStored(s);
    }
  }

  /** The only packet of a stream, which has one byte, is stored. */
  ghost predicate OneByteStored(s: Stream) {
    && Inv(s) && |s.sender.submitted| == 1 && s.sender.trimmed < |s.sender.log|
    && s.receiver.stored == {s.sender.trimmed} && s.receiver.confirmed == {}
  }

  lemma OneByteArrives(start: Stream, statistics: LinkStatistics) returns (events: seq<Event>)
    requires Init(start)
    ensures CanPlay(start, events) && OneByteStored(Play(start, events))
  {
    var write := [Write([0], 0)];
    OneByteIsSent(start);
    var s := Play(start, write);
    var store := FrontIsStored(s, statistics);
    GoingOnIsPlaying(s, store);
    PlayAppend(start, write, store);
    events := write + store;
  }

  /** An ack that is added leaves the one before it in the window. */
  lemma AckBeforeStays(r: ReceivingEnd, next: int, now: int, statistics: LinkStatistics)
    requires r.state.Valid() && r.state.acks.items != [] && r.ackLow + |r.state.acks.items| == |r.records|
    ensures ReceivingEnds.HandleTick(r, next, now, statistics).end.ackLow < |r.records|
  {
  }

  ghost predicate HasAck(s: Stream, a: nat) {
    && s.receiver.ackLow <= a < |s.receiver.records|
    && s.receiver.records[a].Content() == s.receiver.records[a].snapshot == s.receiver.stored
    && exists f :: f in s.network.acks && f.index == a
  }

  /** When its timer has fired the receiver sends an ack for the packet, and an ack before that stays. */
  lemma OneByteAcked(s: Stream, statistics: LinkStatistics) returns (events: seq<Event>)
    requires OneByteStored(s)
    ensures CanPlay(s, events)
    ensures var s' := Play(s, events); var n := |s.receiver.records|;
      && OneByteStored(s') && |s'.receiver.records| == n + 1 && HasAck(s', n)
      && (n > 0 && HasAck(s, n - 1) ==> HasAck(s', n - 1))
  {
    var wait := Wait(ReceiverWakeTime(s));
    PlayOne(s, wait);
    var s1 := Apply(s, wait);
    var tick := ReceiverTick(s1.now + SEND_TIMEOUT, statistics);
    PlayOne(s1, tick);
    AckComesOut(s1, tick.next, statistics);
    PlayAppend(s, [wait], [tick]);
    events := [wait] + [tick];
  }

  lemma TickStores(s: Stream, next: int, statistics: LinkStatistics)
    requires Inv(s)
    ensures var r, r' := s.receiver, ReceivingEnds.HandleTick(s.receiver, next, s.now, statistics).end;
      && r'.stored == r.stored && r'.confirmed == r.confirmed && |r.records| <= |r'.records|
      && forall a :: 0 <= a < |r.records| ==> r'.records[a] == r.records[a]
    ensures !AcksEmpty(s) ==> ReceivingEnds.HandleTick(s.receiver, next, s.now, statistics).end.ackLow < |s.receiver.records|
  {
    ReceivingEnds.HandleTickKeeps(s.receiver, next, s.now, statistics, s.base, s.ackBase, s.sender.log);
    if !AcksEmpty(s) {
      AckBeforeStays(s.receiver, next, s.now, statistics);
    }
  }

  lemma AckComesOut(s: Stream, next: int, statistics: LinkStatistics)
    requires OneByteStored(s) && Enabled(s, ReceiverTick(next, statistics))
    ensures var s' := Apply(s, ReceiverTick(next, statistics)); var n := |s.receiver.records|;
      && OneByteStored(s') && |s'.receiver.records| == n + 1 && HasAck(s', n)
      && (n > 0 && HasAck(s, n - 1) ==> HasAck(s', n - 1))
  {
    assert s.sender.trimmed in s.receiver.stored - s.receiver.confirmed;
    assert s.receiver.stored - s.receiver.confirmed == s.receiver.stored;
    StepKeepsInv(s, ReceiverTick(next, statistics));
    TickAcknowledges(s, next, statistics);
    TickStores(s, next, statistics);
  }

  lemma FirstAckDelivered(s: Stream, f: AckFlight)
    requires OneByteStored(s) && HasAck(s, f.index) && f in s.network.acks
    ensures var deliver := DeliverAck(f, 0, 0); var s' := Apply(s, deliver);
      && CanPlay(s, [deliver]) && Play(s, [deliver]) == s' && Inv(s')
      && s'.receiver == s.receiver && s'.ackBase == s.ackBase && f.index in s'.network.acksOfAcks
      && s'.sender.state.window.items == [] && |s'.sender.log| <= 1
  {
    AckDelivered(s, f);
    PlayOne(s, DeliverAck(f, 0, 0));
    var s' := Apply(s, DeliverAck(f, 0, 0));
    PacketsCount(s'.sender.log, |s'.sender.log|);
  }

  lemma FirstAckEnabled(s: Stream, a: nat)
    requires Inv(s) && |s.sender.log| <= 1 && a in s.network.acksOfAcks && a + 2 == |s.receiver.records|
    requires s.receiver.records[a].Content() == s.receiver.stored
    ensures Enabled(s, DeliverAckOfAck(a))
  {
    Alignment(s);
    assert Young(s.receiver.stored, |s.sender.log|);
  }

  lemma FirstAckConfirms(r: ReceivingEnd, a: nat, base: nat, ackBase: nat)
    requires AckWindowValid(r.state.acks, base, ackBase, r.records, r.ackLow) && |r.state.acks.items| <= MAXIMUM_WINDOW_SIZE
    requires r.ackLow <= a && a + 2 == |r.records| && r.records[a].snapshot == r.stored
    ensures var r' := AckOfAck(r, Wire(ackBase + a)); r'.stored - r'.confirmed == {} && r'.state.acks.items != []
  {
    AckOfAckErases(r, a, base, ackBase);
  }

  lemma FirstAckConfirmed(s: Stream, a: nat)
    requires Inv(s) && s.sender.state.window.items == [] && |s.sender.log| <= 1 && a in s.network.acksOfAcks
    requires s.receiver.ackLow <= a && a + 2 == |s.receiver.records|
    requires s.receiver.records[a].Content() == s.receiver.records[a].snapshot == s.receiver.stored
    ensures var settle := DeliverAckOfAck(a); var s' := Apply(s, settle);
      && CanPlay(s, [settle]) && Play(s, [settle]) == s' && Inv(s') && Idle(s') && !AcksEmpty(s')
  {
    FirstAckEnabled(s, a);
    FirstAckConfirms(s.receiver, a, s.base, s.ackBase);
    IdleAfterwards(s, a);
    PlayOne(s, DeliverAckOfAck(a));
  }

  /** The first of two acks is answered, so that only the second is left in the window. */
  lemma FirstAckAnswered(s: Stream, a: nat) returns (events: seq<Event>)
    requires OneByteStored(s) && HasAck(s, a) && a + 2 == |s.receiver.records|
    ensures CanPlay(s, events)
    ensures var s' := Play(s, events); Inv(s') && Idle(s') && !AcksEmpty(s')
  {
    var f :| f in s.network.acks && f.index == a;
    FirstAckDelivered(s, f);
    FirstAckConfirmed(Apply(s, DeliverAck(f, 0, 0)), a);
    PlayAppend(s, [DeliverAck(f, 0, 0)], [DeliverAckOfAck(a)]);
    events := [DeliverAck(f, 0, 0)] + [DeliverAckOfAck(a)];
  }

  lemma AllLost(s: Stream)
    requires Inv(s) && Idle(s) && !AcksEmpty(s)
    ensures CanPlay(s, [Lose(Network({}, {}, {}))]) && !CanEmptyAcks(Play(s, [Lose(Network({}, {}, {}))]))
    ensures Idle(Play(s, [Lose(Network({}, {}, {}))]))
  {
    PlayOne(s, Lose(Network({}, {}, {})));
  }

  /** A stranded stream can be reached: two acks list the same packet, the first one is answered, and the
      second one is lost. */
  lemma StrandedIsReachable(start: Stream, statistics: LinkStatistics) returns (events: seq<Event>)
    requires Init(start)
    ensures CanPlay(start, events)
    ensures var s := Play(start, events);
      && !CanEmptyAcks(s) && Fresh(s.receiver.stored - s.receiver.confirmed, |s.sender.log|)
  {
    var arrive := OneByteArrives(start, statistics);
    var s1 := Play(start, arrive);
    var first := OneByteAcked(s1, statistics);
    var s2 := Play(s1, first);
    var second := OneByteAcked(s2, statistics);
    var s3 := Play(s2, second);
    var answer := FirstAckAnswered(s3, |s3.receiver.records| - 2);
    var s4 := Play(s3, answer);
    var lose := [Lose(Network({}, {}, {}))];
    AllLost(s4);
    PlayAppend(s3, answer, lose);
    PlayAppend(s2, second, answer + lose);
    PlayAppend(s1, first, second + (answer + lose));
    PlayAppend(start, arrive, first + (second + (answer + lose)));
    events := arrive + (first + (second + (answer + lose)));
  }
}
