/** The sending end of a stream: a sender, the write that a socket is feeding to it, and its history. */
module SendingEnds {
  import opened SequenceNumbers
  import opened SlidingWindows
  import opened Packets
  import opened CongestionControls
  import opened TickTimers
  import opened SenderSpec

  /** A data packet in the network, with the unbounded index of which it carries the wire number. */
  datatype DataFlight = DataFlight(index: nat, packet: DataPacket)

  datatype SendingEnd = SendingEnd(
    state: SenderState,
    timer: Option<int>,
    destination: Uint32,
    // The write in progress and the functors of the messages that are not completed.
    waiting: seq<Byte>,
    message: nat,
    functors: set<nat>,
    // History: every packet ever cut, how many of them left the window, the messages reported complete,
    // the bytes AddData took and the bytes that StartWrite was given.
    log: seq<DataPacket>,
    trimmed: nat,
    completed: seq<nat>,
    accepted: seq<Byte>,
    submitted: seq<Byte>)

  /** An end that has sent nothing yet, with an empty window that starts at `first`. */
  predicate NothingSent(e: SendingEnd, first: SeqNum) {
    && e.state.window == Window(first, [], DEFAULT_WINDOW_SIZE) && e.state.control.Valid() && e.state.currentMessage == 0
    && e.waiting == [] && e.message == 0 && e.functors == {}
    && e.log == [] && e.trimmed == 0 && e.completed == [] && e.accepted == [] && e.submitted == []
  }

  datatype Output = Output(end: SendingEnd, flights: set<DataFlight>)

  /** The bytes of the first k packets. */
  function Payload(log: seq<DataPacket>, k: nat): seq<Byte>
    requires k <= |log|
  {
    if k == 0 then [] else Payload(log, k - 1) + log[k - 1].data
  }

  /** The packets that Fill cuts. */
  function Cut(w: Window<Unacked>, size: nat, current: nat, message: nat, destination: Uint32, data: seq<Byte>, ptr: nat)
    : seq<DataPacket>
    requires size > 0 && ptr <= |data|
    decreases |data| - ptr
  {
    if w.IsFull() || ptr == |data| then []
    else
      var length := Min(size, |data| - ptr);
      var packet := Segment(w.End(), current, message, destination, data, ptr, length);
      [packet] +
      Cut(w.Append(Unacked(packet, true, false, None)), size, message, message, destination, data, ptr + length)
  }

  function NewPackets(e: SendingEnd): seq<DataPacket>
    requires e.state.Valid()
  {
    Cut(Resized(e.state), e.state.control.dataSize, e.state.currentMessage, e.message, e.destination, e.waiting, 0)
  }

  /** The packet that DoSend sends, with its index. */
  function Flights(e: SendingEnd, failures: nat): set<DataFlight> {
    var items := e.state.window.items;
    var k := SendPosition(items, 0, failures);
    if k < |items| then {DataFlight(e.trimmed + k, items[k].packet)} else {}
  }

  /** DoSend, with the packet it sends put into the network. */
  function Transmitted(e: SendingEnd, now: int, failures: nat): Output {
    var r := DoSend(e.state, now, failures);
    Output(e.(state := r.state, timer := Earlier(e.timer, r.NextTick(now))), Flights(e, failures))
  }

  /** AddData on the waiting write, before its DoSend. */
  function Enqueued(e: SendingEnd): SendingEnd
    requires e.state.Valid()
  {
    var f := FillFrom(e.state, e.waiting, e.message, e.destination);
    e.(state := Enqueue(e.state, e.waiting, e.message, e.destination),
       waiting := e.waiting[f.accepted..],
       log := e.log + NewPackets(e),
       accepted := e.accepted + e.waiting[..f.accepted])
  }

  function ProcessWrite(e: SendingEnd, now: int, failures: nat): Output
    requires e.state.Valid()
  {
    if e.waiting == [] then Output(e, {}) else Transmitted(Enqueued(e), now, failures)
  }

  /** The end after StartWrite has recorded a new message and before ProcessWrite. */
  function NewMessage(e: SendingEnd, data: seq<Byte>): SendingEnd {
    var message := e.message + 1;
    e.(waiting := data, message := message, functors := e.functors + {message}, submitted := e.submitted + data)
  }

  function StartWrite(e: SendingEnd, data: seq<Byte>, now: int, failures: nat): Output
    requires e.state.Valid()
  {
    ProcessWrite(NewMessage(e, data), now, failures)
  }

  /** HandleAck up to its DoSend, with the completed messages' functors called and erased. */
  function Acknowledged(e: SendingEnd, packet: AckPacket): SendingEnd
    requires e.state.Valid()
  {
    var (state, done) := Acknowledge(e.state, packet);
    e.(state := state,
       trimmed := e.trimmed + (|e.state.window.items| - |state.window.items|),
       completed := e.completed + done,
       functors := e.functors - set m | m in done)
  }

  function And(o: Output, flights: set<DataFlight>): Output { o.(flights := o.flights + flights) }

  /** Sender::HandleAck: it sends again only if the ack made room. */
  function SentAfterAck(e: SendingEnd, packet: AckPacket, now: int, failures: nat): (o: Output)
    requires e.state.Valid()
    ensures o.end.state.Valid()
  {
    var e1 := Acknowledged(e, packet);
    if |e1.state.window.items| < |e.state.window.items| then Transmitted(e1, now, failures) else Output(e1, {})
  }

  /** Socket::HandleAck at the sending end. */
  function HandleAck(e: SendingEnd, packet: AckPacket, now: int, failures: nat, failures': nat): Output
    requires e.state.Valid()
  {
    var sent := SentAfterAck(e, packet, now, failures);
    And(ProcessWrite(sent.end, now, failures'), sent.flights)
  }

  function HandleNegativeAck(e: SendingEnd, packet: NegativeAckPacket, now: int, failures: nat): Output {
    Transmitted(e.(state := MarkListed(e.state, packet)), now, failures)
  }

  /** TickOp and Socket::HandleTick at the sending end. */
  function HandleTick(e: SendingEnd, now: int, failures: nat, failures': nat): Output
    requires e.state.Valid()
  {
    var sent := Transmitted(e.(state := CheckTimeout(e.state, now), timer := None), now, failures);
    And(ProcessWrite(sent.end, now, failures'), sent.flights)
  }

  /** Whether the packet with index j is marked as acknowledged or has already left the window. */
  predicate Acked(e: SendingEnd, j: nat) {
    j < e.trimmed || (j - e.trimmed < |e.state.window.items| && e.state.window.items[j - e.trimmed].ackd)
  }

  /** The message that the packet with index i belongs to, given the packet before it. */
  function MessageAt(log: seq<DataPacket>, i: nat): nat
    requires i <= |log|
  {
    if i == 0 then 1 else if log[i - 1].lastInMessage then log[i - 1].messageNumber + 1 else log[i - 1].messageNumber
  }

  ghost predicate Numbered(log: seq<DataPacket>, base: nat) {
    forall i :: 0 <= i < |log| ==> log[i].sequenceNumber == Wire(base + i)
  }

  ghost predicate Sized(log: seq<DataPacket>) {
    forall i :: 0 <= i < |log| ==> 0 < |log[i].data| <= MAX_DATA_SIZE
  }

  /** Each packet belongs to the message that its predecessor leads to. */
  ghost predicate Chained(log: seq<DataPacket>) {
    forall i {:trigger MessageAt(log, i)} :: 0 <= i < |log| ==> log[i].messageNumber == MessageAt(log, i)
  }

  ghost predicate LogValid(log: seq<DataPacket>, base: nat) {
    Numbered(log, base) && Sized(log) && Chained(log)
  }

  /** The window holds the tail of the log. */
  ghost predicate Holds(items: seq<Unacked>, log: seq<DataPacket>, trimmed: nat) {
    && trimmed + |items| == |log|
    && forall k :: 0 <= k < |items| ==> items[k].packet == log[trimmed + k]
  }

  /** A packet that is not marked for sending has been sent. */
  ghost predicate SentOrLost(items: seq<Unacked>, now: int) {
    forall k :: 0 <= k < |items| && !items[k].lost ==> items[k].lastSend.Some? && items[k].lastSend.value <= now
  }

  ghost predicate WindowValid(e: SendingEnd, base: nat, now: int) {
    var w := e.state.window;
    && e.state.Valid()
    && w.begin == Wire(base + e.trimmed)
    && Holds(w.items, e.log, e.trimmed)
    && SentOrLost(w.items, now)
  }

  /** The messages reported complete are 1, 2, 3 and so on. */
  ghost predicate CountsUp(completed: seq<nat>) {
    forall i :: 0 <= i < |completed| ==> completed[i] == i + 1
  }

  ghost predicate MessagesValid(e: SendingEnd) {
    && e.trimmed <= |e.log|
    && MessageAt(e.log, |e.log|) == (if e.waiting == [] then e.message + 1 else e.message)
    && |e.completed| + 1 == MessageAt(e.log, e.trimmed) && CountsUp(e.completed)
    && (forall m :: m in e.functors <==> MessageAt(e.log, e.trimmed) <= m <= e.message)
  }

  ghost predicate BytesValid(e: SendingEnd) {
    && e.accepted == Payload(e.log, |e.log|)
    && e.submitted == e.accepted + e.waiting
  }

  /** What every handler of the sending end keeps. */
  ghost predicate CoreValid(e: SendingEnd, base: nat, now: int) {
    LogValid(e.log, base) && WindowValid(e, base, now) && MessagesValid(e) && BytesValid(e)
  }

  ghost predicate FrontOpen(items: seq<Unacked>) {
    items != [] ==> !items[0].ackd
  }

  /** send_timeout_ follows the front packet. */
  ghost predicate TimeoutSet(s: SenderState) {
    s.window.items != [] ==> s.timeout == DeadlineAfter(s.window.items[0].lastSend)
  }

  /** A write waits only for room in the window. */
  ghost predicate WaitsForRoom(e: SendingEnd) {
    e.waiting != [] ==> |e.state.window.items| >= e.state.control.windowSize
  }

  /** What holds between handlers besides. */
  ghost predicate Settled(e: SendingEnd) {
    FrontOpen(e.state.window.items) && TimeoutSet(e.state) && WaitsForRoom(e) && e.timer.Some?
  }

  ghost predicate FlightValid(f: DataFlight, log: seq<DataPacket>) {
    f.index < |log| && f.packet == log[f.index]
  }

  ghost predicate FlightsValid(flights: set<DataFlight>, log: seq<DataPacket>) {
    forall f :: f in flights ==> FlightValid(f, log)
  }

  /** The history only grows and what is acknowledged stays acknowledged. */
  ghost predicate Progress(e: SendingEnd, e': SendingEnd) {
    && |e.log| <= |e'.log| && e.log == e'.log[..|e.log|]
    && e.trimmed <= e'.trimmed
    && (forall j :: Acked(e, j) ==> Acked(e', j))
  }

  /** The handler acknowledges nothing that was not acknowledged before. */
  ghost predicate NoNewAcks(e: SendingEnd, e': SendingEnd) {
    forall j :: Acked(e', j) ==> Acked(e, j)
  }

  lemma NothingSentIsValid(e: SendingEnd, base: nat, now: int)
    requires NothingSent(e, Wire(base))
    ensures CoreValid(e, base, now) && (e.timer.Some? ==> Settled(e))
  {
  }

  // ---- DoSend ----

  lemma TransmitKeeps(items: seq<Unacked>, k: nat, now: int, log: seq<DataPacket>, trimmed: nat)
    requires Holds(items, log, trimmed) && SentOrLost(items, now)
    ensures Holds(Transmit(items, k, now), log, trimmed)
    ensures SentOrLost(Transmit(items, k, now), now)
    ensures FrontOpen(items) ==> FrontOpen(Transmit(items, k, now))
  {
  }

  lemma TransmittedKeeps(e: SendingEnd, base: nat, now: int, failures: nat)
    requires CoreValid(e, base, now)
    ensures CoreValid(Transmitted(e, now, failures).end, base, now)
    ensures FrontOpen(e.state.window.items) ==> FrontOpen(Transmitted(e, now, failures).end.state.window.items)
  {
    var items := e.state.window.items;
    var k := SendPosition(items, 0, failures);
    TransmitKeeps(items, k, now, e.log, e.trimmed);
    var e' := Transmitted(e, now, failures).end;
    assert e'.state.window.items == Transmit(items, k, now);
    assert WindowValid(e', base, now);
  }

  lemma TransmittedProgress(e: SendingEnd, now: int, failures: nat)
    requires e.trimmed + |e.state.window.items| == |e.log|
    ensures Progress(e, Transmitted(e, now, failures).end)
    ensures NoNewAcks(e, Transmitted(e, now, failures).end)
  {
  }

  lemma TransmittedFlights(e: SendingEnd, base: nat, now: int, failures: nat)
    requires CoreValid(e, base, now)
    ensures FlightsValid(Flights(e, failures), e.log)
  {
  }

  function PacketsOf(flights: set<DataFlight>): set<DataPacket> { set f | f in flights :: f.packet }

  function PacketSet(packets: seq<DataPacket>): set<DataPacket> { set p | p in packets }

  /** The flights are the packets that DoSend hands to the network. */
  lemma FlightsAreSent(e: SendingEnd, now: int, failures: nat)
    ensures PacketsOf(Flights(e, failures)) == PacketSet(DoSend(e.state, now, failures).packets)
  {
    var items := e.state.window.items;
    var k := SendPosition(items, 0, failures);
    if k < |items| {
      var f := DataFlight(e.trimmed + k, items[k].packet);
      assert Flights(e, failures) == {f};
      assert f.packet in PacketsOf(Flights(e, failures));
    }
  }

  lemma PacketsOfBoth(a: set<DataFlight>, b: set<DataFlight>, p: seq<DataPacket>, q: seq<DataPacket>)
    requires PacketsOf(a) == PacketSet(p) && PacketsOf(b) == PacketSet(q)
    ensures PacketsOf(a + b) == PacketSet(q + p)
  {
    assert PacketsOf(a + b) == PacketsOf(a) + PacketsOf(b);
    assert PacketSet(q + p) == PacketSet(q) + PacketSet(p);
  }

  // ---- AddData ----

  lemma {:induction false} PayloadOfPrefix(log: seq<DataPacket>, log': seq<DataPacket>, k: nat)
    requires k <= |log| <= |log'| && log == log'[..|log|]
    ensures Payload(log, k) == Payload(log', k)
  {
    if k > 0 {
      PayloadOfPrefix(log, log', k - 1);
    }
  }

  lemma MessageAtPrefix(log: seq<DataPacket>, log': seq<DataPacket>, i: nat)
    requires i <= |log| <= |log'| && log == log'[..|log|]
    ensures MessageAt(log, i) == MessageAt(log', i)
  {
    assert i > 0 ==> log[i - 1] == log'[i - 1];
  }

  lemma ChainExtends(log: seq<DataPacket>, packet: DataPacket)
    requires Chained(log) && packet.messageNumber == MessageAt(log, |log|)
    ensures Chained(log + [packet])
  {
    var log' := log + [packet];
    forall i | 0 <= i < |log'| ensures log'[i].messageNumber == MessageAt(log', i) {
      MessageAtPrefix(log, log', i);
    }
  }

  lemma PayloadExtends(log: seq<DataPacket>, packet: DataPacket)
    ensures Payload(log + [packet], |log| + 1) == Payload(log, |log|) + packet.data
  {
    PayloadOfPrefix(log, log + [packet], |log|);
  }

  function Pending(packets: seq<DataPacket>): seq<Unacked> {
    seq(|packets|, i requires 0 <= i < |packets| => Unacked(packets[i], true, false, None))
  }

  /** Fill appends the packets that it cuts, and stops early only when the window is full. */
  lemma {:induction false} FillAppends(
    w: Window<Unacked>, size: nat, current: nat, message: nat, destination: Uint32, data: seq<Byte>, ptr: nat)
    requires size > 0 && ptr <= |data| && w.Valid()
    ensures var f := Fill(w, size, current, message, destination, data, ptr);
      && f.window == w.(items := w.items + Pending(Cut(w, size, current, message, destination, data, ptr)))
      && f.window.Valid()
      && (f.accepted < |data| ==> f.window.IsFull())
    decreases |data| - ptr
  {
    if w.IsFull() || ptr == |data| {
      assert w.items + Pending([]) == w.items;
    } else {
      var length := Min(size, |data| - ptr);
      var packet := Segment(w.End(), current, message, destination, data, ptr, length);
      var w1 := w.Append(Unacked(packet, true, false, None));
      FillAppends(w1, size, message, message, destination, data, ptr + length);
      var rest := Cut(w1, size, message, message, destination, data, ptr + length);
      assert Pending([packet] + rest) == [Unacked(packet, true, false, None)] + Pending(rest);
      assert w1.items + Pending(rest) == w.items + Pending([packet] + rest);
    }
  }

  lemma {:induction false} CutNumbered(
    w: Window<Unacked>, size: nat, current: nat, message: nat, destination: Uint32, data: seq<Byte>, ptr: nat,
    log: seq<DataPacket>, base: nat)
    requires 0 < size <= MAX_DATA_SIZE && ptr <= |data|
    requires w.End() == Wire(base + |log|) && Numbered(log, base) && Sized(log)
    ensures var log' := log + Cut(w, size, current, message, destination, data, ptr);
      Numbered(log', base) && Sized(log')
    decreases |data| - ptr
  {
    if w.IsFull() || ptr == |data| {
      assert log + [] == log;
    } else {
      var length := Min(size, |data| - ptr);
      var packet := Segment(w.End(), current, message, destination, data, ptr, length);
      var w1 := w.Append(Unacked(packet, true, false, None));
      EndAfterAppend(w, Unacked(packet, true, false, None), base + |log|);
      CutNumbered(w1, size, message, message, destination, data, ptr + length, log + [packet], base);
      var rest := Cut(w1, size, message, message, destination, data, ptr + length);
      assert (log + [packet]) + rest == log + ([packet] + rest);
    }
  }

  lemma EndAfterAppend(w: Window<Unacked>, item: Unacked, i: nat)
    requires w.End() == Wire(i)
    ensures w.Append(item).End() == Wire(i + 1)
  {
    WireAdd(i, 1);
    WireAdd(w.begin + |w.items|, 1);
  }

  lemma {:induction false} CutChained(
    w: Window<Unacked>, size: nat, current: nat, message: nat, destination: Uint32, data: seq<Byte>, ptr: nat,
    log: seq<DataPacket>)
    requires size > 0 && ptr <= |data|
    requires Chained(log) && MessageAt(log, |log|) == (if ptr == |data| then message + 1 else message)
    ensures var log' := log + Cut(w, size, current, message, destination, data, ptr);
      && Chained(log')
      && MessageAt(log', |log'|) ==
           (if Fill(w, size, current, message, destination, data, ptr).accepted == |data| then message + 1 else message)
    decreases |data| - ptr
  {
    if w.IsFull() || ptr == |data| {
      assert log + [] == log;
    } else {
      var length := Min(size, |data| - ptr);
      var packet := Segment(w.End(), current, message, destination, data, ptr, length);
      var w1 := w.Append(Unacked(packet, true, false, None));
      ChainExtends(log, packet);
      CutChained(w1, size, message, message, destination, data, ptr + length, log + [packet]);
      var rest := Cut(w1, size, message, message, destination, data, ptr + length);
      assert (log + [packet]) + rest == log + ([packet] + rest);
    }
  }

  lemma {:induction false} CutPayload(
    w: Window<Unacked>, size: nat, current: nat, message: nat, destination: Uint32, data: seq<Byte>, ptr: nat,
    log: seq<DataPacket>)
    requires size > 0 && ptr <= |data|
    ensures var log' := log + Cut(w, size, current, message, destination, data, ptr);
      Payload(log', |log'|) ==
        Payload(log, |log|) + data[ptr..Fill(w, size, current, message, destination, data, ptr).accepted]
    decreases |data| - ptr
  {
    if w.IsFull() || ptr == |data| {
      assert log + [] == log;
    } else {
      var length := Min(size, |data| - ptr);
      var packet := Segment(w.End(), current, message, destination, data, ptr, length);
      var w1 := w.Append(Unacked(packet, true, false, None));
      PayloadExtends(log, packet);
      CutPayload(w1, size, message, message, destination, data, ptr + length, log + [packet]);
      var rest := Cut(w1, size, message, message, destination, data, ptr + length);
      assert (log + [packet]) + rest == log + ([packet] + rest);
      var end := Fill(w, size, current, message, destination, data, ptr).accepted;
      assert data[ptr..ptr + length] + data[ptr + length..end] == data[ptr..end];
    }
  }

  lemma PendingHolds(items: seq<Unacked>, packets: seq<DataPacket>, log: seq<DataPacket>, trimmed: nat, now: int)
    requires Holds(items, log, trimmed) && SentOrLost(items, now)
    ensures Holds(items + Pending(packets), log + packets, trimmed)
    ensures SentOrLost(items + Pending(packets), now)
    ensures FrontOpen(items) ==> FrontOpen(items + Pending(packets))
  {
  }

  lemma EnqueuedWindow(e: SendingEnd, base: nat, now: int)
    requires CoreValid(e, base, now)
    ensures WindowValid(Enqueued(e), base, now) && LogValid(Enqueued(e).log, base)
    ensures Enqueued(e).state.window.items == e.state.window.items + Pending(NewPackets(e))
    ensures WaitsForRoom(Enqueued(e))
    ensures FrontOpen(e.state.window.items) ==> FrontOpen(Enqueued(e).state.window.items)
  {
    var w := Resized(e.state);
    var c := e.state.control;
    var packets := NewPackets(e);
    FillAppends(w, c.dataSize, e.state.currentMessage, e.message, e.destination, e.waiting, 0);
    PendingHolds(w.items, packets, e.log, e.trimmed, now);
    WireAdd(base + e.trimmed, |w.items|);
    CutNumbered(w, c.dataSize, e.state.currentMessage, e.message, e.destination, e.waiting, 0, e.log, base);
    CutChainedFrom(e);
  }

  lemma CutChainedFrom(e: SendingEnd)
    requires e.state.Valid() && Chained(e.log) && MessagesValid(e)
    ensures Chained(e.log + NewPackets(e))
    ensures var e' := Enqueued(e);
      MessageAt(e'.log, |e'.log|) == if e'.waiting == [] then e.message + 1 else e.message
  {
    var s := e.state;
    CutChained(Resized(s), s.control.dataSize, s.currentMessage, e.message, e.destination, e.waiting, 0, e.log);
  }

  lemma EnqueuedBytes(e: SendingEnd)
    requires e.state.Valid() && BytesValid(e)
    ensures BytesValid(Enqueued(e))
  {
    var s := e.state;
    CutPayload(Resized(s), s.control.dataSize, s.currentMessage, e.message, e.destination, e.waiting, 0, e.log);
    var f := FillFrom(s, e.waiting, e.message, e.destination);
    assert e.waiting[0..f.accepted] == e.waiting[..f.accepted];
    assert e.submitted == (e.accepted + e.waiting[..f.accepted]) + e.waiting[f.accepted..];
  }

  lemma EnqueuedMessages(e: SendingEnd)
    requires e.state.Valid() && Chained(e.log) && MessagesValid(e)
    ensures MessagesValid(Enqueued(e))
  {
    CutChainedFrom(e);
    assert (e.log + NewPackets(e))[..|e.log|] == e.log;
    MessageAtPrefix(e.log, Enqueued(e).log, e.trimmed);
  }

  lemma EnqueuedProgress(e: SendingEnd)
    requires e.state.Valid() && Enqueued(e).state.window.items == e.state.window.items + Pending(NewPackets(e))
    ensures Progress(e, Enqueued(e)) && NoNewAcks(e, Enqueued(e))
  {
    assert (e.log + NewPackets(e))[..|e.log|] == e.log;
  }

  lemma EnqueuedKeeps(e: SendingEnd, base: nat, now: int)
    requires CoreValid(e, base, now)
    ensures CoreValid(Enqueued(e), base, now)
    ensures Progress(e, Enqueued(e)) && NoNewAcks(e, Enqueued(e))
    ensures WaitsForRoom(Enqueued(e))
    ensures FrontOpen(e.state.window.items) ==> FrontOpen(Enqueued(e).state.window.items)
  {
    EnqueuedWindow(e, base, now);
    EnqueuedBytes(e);
    EnqueuedMessages(e);
    EnqueuedProgress(e);
  }

  // ---- HandleAck ----

  /** The messages reported by a trim continue the count. */
  lemma {:induction false} CompletedCounts(items: seq<Unacked>, k: nat, log: seq<DataPacket>, trimmed: nat)
    requires k <= |items| && Holds(items, log, trimmed) && Chained(log)
    ensures MessageAt(log, trimmed) + |CompletedMessages(items, k)| == MessageAt(log, trimmed + k)
    ensures forall i :: 0 <= i < |CompletedMessages(items, k)| ==>
      CompletedMessages(items, k)[i] == MessageAt(log, trimmed) + i
  {
    if k > 0 {
      CompletedCounts(items, k - 1, log, trimmed);
      var i := trimmed + (k - 1);
      assert items[k - 1].packet == log[i] && log[i].messageNumber == MessageAt(log, i);
    }
  }

  lemma {:induction false} MessagesIncrease(log: seq<DataPacket>, i: nat, j: nat)
    requires i <= j <= |log| && Chained(log)
    ensures MessageAt(log, i) <= MessageAt(log, j)
  {
    if i < j {
      MessagesIncrease(log, i, j - 1);
      assert log[j - 1].messageNumber == MessageAt(log, j - 1);
    }
  }

  lemma MarkAckedHolds(w: Window<Unacked>, ranges: seq<Range>, log: seq<DataPacket>, trimmed: nat, now: int)
    requires Holds(w.items, log, trimmed) && SentOrLost(w.items, now)
    ensures Holds(MarkAcked(w, ranges).items, log, trimmed) && SentOrLost(MarkAcked(w, ranges).items, now)
  {
  }

  lemma CompletedAre(items: seq<Unacked>, k: nat, log: seq<DataPacket>, trimmed: nat, m: nat)
    requires k <= |items| && Holds(items, log, trimmed) && Chained(log)
    ensures m in CompletedMessages(items, k) <==> MessageAt(log, trimmed) <= m < MessageAt(log, trimmed + k)
  {
    CompletedCounts(items, k, log, trimmed);
    var done := CompletedMessages(items, k);
    if MessageAt(log, trimmed) <= m < MessageAt(log, trimmed + k) {
      assert done[m - MessageAt(log, trimmed)] == m;
    }
  }

  /** Different numbers, all of them in the set. */
  ghost predicate AllDifferent(numbers: seq<nat>, s: set<nat>) {
    && (forall i :: 0 <= i < |numbers| ==> numbers[i] in s)
    && (forall i, j :: 0 <= i < j < |numbers| ==> numbers[i] != numbers[j])
  }

  lemma FunctorsErased(e: SendingEnd, items: seq<Unacked>, k: nat, m: nat)
    requires MessagesValid(e) && Chained(e.log) && Holds(items, e.log, e.trimmed) && k <= |items|
    ensures m in CompletedMessages(items, k) ==> m in e.functors
    ensures m in e.functors && m !in CompletedMessages(items, k) <==>
      MessageAt(e.log, e.trimmed + k) <= m <= e.message
  {
    CompletedAre(items, k, e.log, e.trimmed, m);
    MessagesIncrease(e.log, e.trimmed, e.trimmed + k);
    MessagesIncrease(e.log, e.trimmed + k, |e.log|);
  }

  lemma TrimKeepsMessages(e: SendingEnd, e': SendingEnd, items: seq<Unacked>, k: nat)
    requires MessagesValid(e) && Chained(e.log) && Holds(items, e.log, e.trimmed) && k <= |items|
    requires e'.log == e.log && e'.waiting == e.waiting && e'.message == e.message && e'.trimmed == e.trimmed + k
    requires e'.completed == e.completed + CompletedMessages(items, k)
    requires e'.functors == e.functors - set m | m in CompletedMessages(items, k)
    ensures MessagesValid(e')
    ensures AllDifferent(CompletedMessages(items, k), e.functors)
  {
    CompletedCounts(items, k, e.log, e.trimmed);
    forall m: nat
      ensures m in CompletedMessages(items, k) ==> m in e.functors
      ensures m in e'.functors <==> MessageAt(e.log, e.trimmed + k) <= m <= e.message
    {
      FunctorsErased(e, items, k, m);
    }
  }

  lemma AcknowledgedMessages(e: SendingEnd, base: nat, now: int, packet: AckPacket)
    requires CoreValid(e, base, now)
    ensures MessagesValid(Acknowledged(e, packet))
    ensures AllDifferent(Acknowledge(e.state, packet).1, e.functors)
  {
    var items := MarkAcked(e.state.window, packet.ranges).items;
    MarkAckedHolds(e.state.window, packet.ranges, e.log, e.trimmed, now);
    TrimKeepsMessages(e, Acknowledged(e, packet), items, TrimPosition(items, 0));
  }

  lemma RemoveFrontHolds(items: seq<Unacked>, k: nat, log: seq<DataPacket>, trimmed: nat, now: int)
    requires k <= |items| && Holds(items, log, trimmed) && SentOrLost(items, now)
    ensures Holds(items[k..], log, trimmed + k) && SentOrLost(items[k..], now)
  {
  }

  lemma TrimKeepsWindow(e': SendingEnd, w: Window<Unacked>, k: nat, trimmed: nat, base: nat, now: int)
    requires k <= |w.items| && Holds(w.items, e'.log, trimmed) && SentOrLost(w.items, now) && w.begin == Wire(base + trimmed)
    requires e'.state.Valid() && e'.state.window == w.RemoveFront(k) && e'.trimmed == trimmed + k
    ensures WindowValid(e', base, now)
  {
    RemoveFrontHolds(w.items, k, e'.log, trimmed, now);
    WireAdd(base + trimmed, k);
  }

  lemma AcknowledgedWindow(e: SendingEnd, base: nat, now: int, packet: AckPacket)
    requires CoreValid(e, base, now)
    ensures WindowValid(Acknowledged(e, packet), base, now)
    ensures FrontOpen(Acknowledged(e, packet).state.window.items)
  {
    var w := MarkAcked(e.state.window, packet.ranges);
    MarkAckedHolds(e.state.window, packet.ranges, e.log, e.trimmed, now);
    TrimKeepsWindow(Acknowledged(e, packet), w, TrimPosition(w.items, 0), e.trimmed, base, now);
  }

  lemma AcknowledgedKeeps(e: SendingEnd, base: nat, now: int, packet: AckPacket)
    requires CoreValid(e, base, now)
    ensures CoreValid(Acknowledged(e, packet), base, now)
    ensures FrontOpen(Acknowledged(e, packet).state.window.items)
    ensures Progress(e, Acknowledged(e, packet))
  {
    AcknowledgedWindow(e, base, now, packet);
    AcknowledgedMessages(e, base, now, packet);
    AcknowledgedAcks(e, packet);
  }

  /** What is acknowledged after an ack is what was acknowledged before and what the ack lists. */
  lemma AcknowledgedAcks(e: SendingEnd, packet: AckPacket)
    requires e.state.Valid()
    ensures forall j: nat :: Acked(Acknowledged(e, packet), j) <==>
      Acked(e, j) || (e.trimmed <= j < e.trimmed + |e.state.window.items| &&
                      Covers(packet.ranges, e.state.window.NumberAt(j - e.trimmed)))
  {
    var items := MarkAcked(e.state.window, packet.ranges).items;
    var k := TrimPosition(items, 0);
    var e' := Acknowledged(e, packet);
    forall j | e.trimmed <= j < e.trimmed + |items| ensures Acked(e', j) <==> items[j - e.trimmed].ackd {
    }
  }

  // ---- HandleNegativeAck and HandleTick ----

  /** Marking more packets as lost. */
  ghost predicate MoreLost(items: seq<Unacked>, items': seq<Unacked>) {
    && |items| == |items'|
    && forall k :: 0 <= k < |items| ==> items'[k] == items[k].(lost := items'[k].lost) && (items[k].lost ==> items'[k].lost)
  }

  lemma MoreLostHolds(items: seq<Unacked>, items': seq<Unacked>, log: seq<DataPacket>, trimmed: nat, now: int)
    requires Holds(items, log, trimmed) && SentOrLost(items, now) && MoreLost(items, items')
    ensures Holds(items', log, trimmed) && SentOrLost(items', now)
  {
  }

  lemma MoreLostKeeps(e: SendingEnd, e': SendingEnd, base: nat, now: int)
    requires CoreValid(e, base, now) && MoreLost(e.state.window.items, e'.state.window.items)
    requires e'.state.control.Valid()
    requires e' == e.(state := e'.state, timer := e'.timer)
    requires e'.state.window == e.state.window.(items := e'.state.window.items)
    ensures CoreValid(e', base, now) && Progress(e, e') && NoNewAcks(e, e')
    ensures FrontOpen(e.state.window.items) ==> FrontOpen(e'.state.window.items)
  {
    MoreLostHolds(e.state.window.items, e'.state.window.items, e.log, e.trimmed, now);
    assert WindowValid(e', base, now);
  }

  // ---- Whole handlers ----

  ghost predicate HandlerKeeps(e: SendingEnd, o: Output, base: nat, now: int) {
    && CoreValid(o.end, base, now) && Settled(o.end)
    && Progress(e, o.end) && FlightsValid(o.flights, o.end.log)
  }

  lemma TransmittedAll(e: SendingEnd, base: nat, now: int, failures: nat)
    requires CoreValid(e, base, now)
    ensures var o := Transmitted(e, now, failures);
      && CoreValid(o.end, base, now) && Progress(e, o.end) && NoNewAcks(e, o.end)
      && FlightsValid(o.flights, o.end.log)
      && (FrontOpen(e.state.window.items) ==> FrontOpen(o.end.state.window.items))
  {
    TransmittedKeeps(e, base, now, failures);
    TransmittedProgress(e, now, failures);
    TransmittedFlights(e, base, now, failures);
  }

  lemma ProgressTransitive(a: SendingEnd, b: SendingEnd, c: SendingEnd)
    requires Progress(a, b) && Progress(b, c)
    ensures Progress(a, c)
  {
    assert a.log == b.log[..|a.log|] == c.log[..|b.log|][..|a.log|] == c.log[..|a.log|];
  }

  lemma ProcessWriteKeeps(e: SendingEnd, base: nat, now: int, failures: nat)
    requires CoreValid(e, base, now) && FrontOpen(e.state.window.items) && TimeoutSet(e.state) && e.timer.Some?
    ensures HandlerKeeps(e, ProcessWrite(e, now, failures), base, now)
    ensures NoNewAcks(e, ProcessWrite(e, now, failures).end)
  {
    if e.waiting != [] {
      var e1 := Enqueued(e);
      EnqueuedKeeps(e, base, now);
      TransmittedAll(e1, base, now, failures);
      ProgressTransitive(e, e1, Transmitted(e1, now, failures).end);
    }
  }

  lemma FlightsOfPrefix(flights: set<DataFlight>, log: seq<DataPacket>, log': seq<DataPacket>)
    requires FlightsValid(flights, log) && |log| <= |log'| && log == log'[..|log|]
    ensures FlightsValid(flights, log')
  {
    forall f | f in flights ensures FlightValid(f, log') {
      assert FlightValid(f, log);
    }
  }

  /** A handler that sends and then goes on with the waiting write. */
  lemma SendAndWriteKeeps(e: SendingEnd, sent: Output, base: nat, now: int, failures: nat)
    requires CoreValid(sent.end, base, now) && FrontOpen(sent.end.state.window.items)
    requires TimeoutSet(sent.end.state) && sent.end.timer.Some?
    requires Progress(e, sent.end) && FlightsValid(sent.flights, sent.end.log)
    ensures HandlerKeeps(e, And(ProcessWrite(sent.end, now, failures), sent.flights), base, now)
    ensures NoNewAcks(sent.end, ProcessWrite(sent.end, now, failures).end)
  {
    ProcessWriteKeeps(sent.end, base, now, failures);
    var o := ProcessWrite(sent.end, now, failures);
    ProgressTransitive(e, sent.end, o.end);
    FlightsOfPrefix(sent.flights, sent.end.log, o.end.log);
  }

  lemma SentAfterAckKeeps(e: SendingEnd, packet: AckPacket, base: nat, now: int, failures: nat)
    requires CoreValid(e, base, now) && Settled(e)
    ensures var o := SentAfterAck(e, packet, now, failures);
      && CoreValid(o.end, base, now) && FlightsValid(o.flights, o.end.log) && o.end.timer.Some?
      && FrontOpen(o.end.state.window.items) && TimeoutSet(o.end.state)
      && Progress(e, Acknowledged(e, packet))
      && Progress(Acknowledged(e, packet), o.end) && NoNewAcks(Acknowledged(e, packet), o.end)
  {
    AcknowledgedKeeps(e, base, now, packet);
    TransmittedAll(Acknowledged(e, packet), base, now, failures);
  }

  lemma AckThenWrite(e: SendingEnd, e1: SendingEnd, sent: Output, o: Output, base: nat, now: int)
    requires Progress(e, e1) && Progress(e1, sent.end) && NoNewAcks(e1, sent.end)
    requires FlightsValid(sent.flights, sent.end.log)
    requires HandlerKeeps(sent.end, o, base, now) && NoNewAcks(sent.end, o.end)
    ensures HandlerKeeps(e, And(o, sent.flights), base, now)
    ensures Progress(e1, o.end) && NoNewAcks(e1, o.end)
  {
    ProgressTransitive(e1, sent.end, o.end);
    ProgressTransitive(e, e1, o.end);
    NoNewAcksTransitive(e1, sent.end, o.end);
    FlightsOfPrefix(sent.flights, sent.end.log, o.end.log);
  }

  lemma HandleAckKeeps(e: SendingEnd, packet: AckPacket, base: nat, now: int, failures: nat, failures': nat)
    requires CoreValid(e, base, now) && Settled(e)
    ensures HandlerKeeps(e, HandleAck(e, packet, now, failures, failures'), base, now)
    ensures Progress(Acknowledged(e, packet), HandleAck(e, packet, now, failures, failures').end)
    ensures NoNewAcks(Acknowledged(e, packet), HandleAck(e, packet, now, failures, failures').end)
  {
    var sent := SentAfterAck(e, packet, now, failures);
    SentAfterAckKeeps(e, packet, base, now, failures);
    ProcessWriteKeeps(sent.end, base, now, failures');
    AckThenWrite(e, Acknowledged(e, packet), sent, ProcessWrite(sent.end, now, failures'), base, now);
  }

  lemma NoNewAcksTransitive(a: SendingEnd, b: SendingEnd, c: SendingEnd)
    requires NoNewAcks(a, b) && NoNewAcks(b, c)
    ensures NoNewAcks(a, c)
  {
  }

  lemma HandleTickKeeps(e: SendingEnd, base: nat, now: int, failures: nat, failures': nat)
    requires CoreValid(e, base, now) && FrontOpen(e.state.window.items)
    ensures HandlerKeeps(e, HandleTick(e, now, failures, failures'), base, now)
    ensures NoNewAcks(e, HandleTick(e, now, failures, failures').end)
  {
    var e1 := e.(state := CheckTimeout(e.state, now), timer := None);
    MoreLostKeeps(e, e1, base, now);
    var sent := Transmitted(e1, now, failures);
    TransmittedAll(e1, base, now, failures);
    ProgressTransitive(e, e1, sent.end);
    SendAndWriteKeeps(e, sent, base, now, failures');
  }

  lemma HandleNegativeAckKeeps(e: SendingEnd, packet: NegativeAckPacket, base: nat, now: int, failures: nat)
    requires CoreValid(e, base, now) && Settled(e)
    ensures HandlerKeeps(e, HandleNegativeAck(e, packet, now, failures), base, now)
    ensures NoNewAcks(e, HandleNegativeAck(e, packet, now, failures).end)
  {
    var e1 := e.(state := MarkListed(e.state, packet));
    MoreLostKeeps(e, e1, base, now);
    TransmittedAll(e1, base, now, failures);
    ProgressTransitive(e, e1, Transmitted(e1, now, failures).end);
  }

  lemma NewMessageKeeps(e: SendingEnd, data: seq<Byte>, base: nat, now: int)
    requires CoreValid(e, base, now) && e.waiting == [] && data != []
    ensures CoreValid(NewMessage(e, data), base, now)
    ensures Progress(e, NewMessage(e, data)) && NoNewAcks(e, NewMessage(e, data))
  {
    MessagesIncrease(e.log, e.trimmed, |e.log|);
    var e1 := NewMessage(e, data);
    assert MessagesValid(e1);
    assert BytesValid(e1);
    assert WindowValid(e1, base, now);
  }

  lemma StartWriteKeeps(e: SendingEnd, data: seq<Byte>, base: nat, now: int, failures: nat)
    requires CoreValid(e, base, now) && Settled(e) && e.waiting == [] && data != []
    ensures HandlerKeeps(e, StartWrite(e, data, now, failures), base, now)
    ensures NoNewAcks(e, StartWrite(e, data, now, failures).end)
  {
    var e1 := NewMessage(e, data);
    NewMessageKeeps(e, data, base, now);
    ProcessWriteKeeps(e1, base, now, failures);
    ProgressTransitive(e, e1, ProcessWrite(e1, now, failures).end);
  }
}
