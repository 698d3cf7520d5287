/** The receiving end of a stream: a receiver and its history. */
module ReceivingEnds {
  import opened SequenceNumbers
  import opened SlidingWindows
  import opened Packets
  import opened CongestionControls
  import opened AckRanges
  import opened TickTimers
  import opened ReceiverSpec
  import opened SendingEnds

  /** How old, counted in packets, a number may grow while it is in the network or waits for its ack-of-ack. */
  const LIFETIME: nat := MODULUS - MAXIMUM_WINDOW_SIZE

  /** What an ack was generated from: every index stored by then, how many packets had been read out,
      and the snapshot that had been confirmed by then, with its own read position. */
  datatype AckRecord = AckRecord(snapshot: set<nat>, low: nat, settled: set<nat>, settledLow: nat) {
    /** The indices that the ack lists. */
    function Content(): set<nat> { snapshot - settled }
  }

  /** An ack in the network, with its unbounded index. */
  datatype AckFlight = AckFlight(index: nat, packet: AckPacket)

  datatype ReceivingEnd = ReceivingEnd(
    state: ReceiverState,
    timer: Option<int>,
    // History: packets read out, indices ever stored, bytes handed to the application.
    consumed: nat,
    stored: set<nat>,
    delivered: seq<Byte>,
    // Every ack ever generated, how many of them left the ack window, and the snapshot of the latest
    // one whose ack-of-ack was taken in.
    records: seq<AckRecord>,
    ackLow: nat,
    confirmed: set<nat>,
    confirmedLow: nat)

  /** An end that has received nothing yet, with a window that starts at `first` and acks that start at `firstAck`. */
  predicate NothingReceived(e: ReceivingEnd, first: SeqNum, firstAck: SeqNum) {
    && e.state.unread == Window(first, [], DEFAULT_WINDOW_SIZE) && e.state.acks == Window(firstAck, [], DEFAULT_WINDOW_SIZE)
    && e.state.received == {} && e.state.control.Valid()
    && e.consumed == 0 && e.stored == {} && e.delivered == []
    && e.records == [] && e.ackLow == 0 && e.confirmed == {} && e.confirmedLow == 0
  }

  datatype Reply = Reply(end: ReceivingEnd, acks: set<AckFlight>)

  function Nums(base: nat, indices: set<nat>): set<nat> {
    set j | j in indices :: Wire(base + j)
  }

  function Reserved(e: ReceivingEnd, n: SeqNum): Window<Unread> {
    Reserve(e.state.unread.WithMaximumSize(e.state.control.windowSize), n)
  }

  function Stored(e: ReceivingEnd, f: DataFlight): ReceivingEnd {
    var n := f.packet.sequenceNumber;
    var w := Reserved(e, n);
    e.(state := Store(e.state, f.packet),
       stored := if w.Contains(n) && w.items[Offset(w.begin, n)].lost then e.stored + {f.index} else e.stored)
  }

  function NewRecord(e: ReceivingEnd): AckRecord {
    AckRecord(e.stored, e.consumed, e.confirmed, e.confirmedLow)
  }

  function AckAdded(e: ReceivingEnd, now: int, statistics: LinkStatistics): Reply
    requires e.state.unread.Valid()
  {
    var r := AddAckToWindow(e.state, now, statistics);
    if r.ack == None then Reply(e.(state := r.state), {})
    else
      Reply(e.(state := r.state,
               records := e.records + [NewRecord(e)],
               ackLow := e.ackLow + (|e.state.acks.items| - |AckRoom(e.state.acks).items|)),
            {AckFlight(|e.records|, r.ack.value)})
  }

  /** Receiver::HandleTick: an ack if there is something to acknowledge, and the timer for the next one. */
  function Ticked(e: ReceivingEnd, now: int, statistics: LinkStatistics): Reply
    requires e.state.unread.Valid()
  {
    var r := AckAdded(e, now, statistics);
    Reply(r.end.(timer := Soonest(e.timer, AckDeadline(r.end.state.acks))), r.acks)
  }

  /** The timer fires: it is reset, the sending half of the same socket asks for its next tick, and then
      the receiver ticks. */
  function HandleTick(e: ReceivingEnd, next: int, now: int, statistics: LinkStatistics): Reply
    requires e.state.unread.Valid()
  {
    Ticked(e.(timer := Some(next)), now, statistics)
  }

  function TickedIfFull(e: ReceivingEnd, now: int, statistics: LinkStatistics): Reply
    requires e.state.unread.Valid()
  {
    if AcksAtOnce(e.state) then Ticked(e, now, statistics) else Reply(e, {})
  }

  /** Receiver::HandleData. */
  ghost function HandleData(e: ReceivingEnd, f: DataFlight, now: int, statistics: LinkStatistics): Reply
    requires e.state.Valid()
  {
    StoreKeepsValid(e.state, f.packet);
    var r := TickedIfFull(Stored(e, f), now, statistics);
    Reply(r.end.(timer := Rearmed(r.end.timer, now)), r.acks)
  }

  /** Receiver::HandleAckOfAck for the ack with wire number n. */
  function AckOfAck(e: ReceivingEnd, n: SeqNum): ReceivingEnd
    requires e.ackLow + |e.state.acks.items| <= |e.records|
  {
    var acks := e.state.acks;
    if !acks.Contains(n) then e
    else
      var k := Offset(acks.begin, n);
      var record := e.records[e.ackLow + k];
      e.(state := HandleAckOfAck(e.state, n), ackLow := e.ackLow + k + 1,
         confirmed := record.snapshot, confirmedLow := record.low)
  }

  function ReadOut(e: ReceivingEnd, size: nat): ReceivingEnd {
    var (state, data) := ReadData(e.state, size);
    e.(state := state,
       consumed := e.consumed + (|e.state.unread.items| - |state.unread.items|),
       delivered := e.delivered + data)
  }

  // ---- What every step keeps ----

  /** The slots of the window hold the log's packets where they are stored and are lost where not. */
  ghost predicate Slots(items: seq<Unread>, log: seq<DataPacket>, stored: set<nat>, consumed: nat) {
    && consumed + |items| <= |log|
    && forall k :: 0 <= k < |items| ==> Slot(items[k], log[consumed + k], (consumed + k) in stored)
  }

  ghost predicate Slot(item: Unread, packet: DataPacket, stored: bool) {
    && (item.lost <==> !stored)
    && (item.lost ==> item.bytesRead == 0)
    && (!item.lost ==> item.packet == packet && item.bytesRead < |packet.data|)
  }

  ghost predicate OnlyFrontRead(items: seq<Unread>) {
    forall k :: 1 <= k < |items| ==> items[k].bytesRead == 0
  }

  /** Everything below low is there, nothing at or above high is. */
  ghost predicate Shape(s: set<nat>, low: nat, high: nat) {
    (forall j :: 0 <= j < low ==> j in s) && (forall j :: j in s ==> j < high)
  }

  function FrontRead(items: seq<Unread>): seq<Byte> {
    if items == [] || items[0].bytesRead > |items[0].packet.data| then []
    else items[0].packet.data[..items[0].bytesRead]
  }

  ghost predicate UnreadValid(w: Window<Unread>, base: nat, log: seq<DataPacket>, stored: set<nat>, consumed: nat, delivered: seq<Byte>) {
    && w.Valid() && w.begin == Wire(base + consumed)
    && Slots(w.items, log, stored, consumed) && OnlyFrontRead(w.items)
    && Shape(stored, consumed, consumed + |w.items|)
    && delivered == Payload(log, consumed) + FrontRead(w.items)
  }

  ghost predicate RecordValid(r: AckRecord, stored: set<nat>) {
    && r.snapshot <= stored
    && Shape(r.snapshot, r.low, r.low + MAXIMUM_WINDOW_SIZE)
    && Shape(r.settled, r.settledLow, r.settledLow + MAXIMUM_WINDOW_SIZE)
  }

  ghost predicate RecordsValid(records: seq<AckRecord>, stored: set<nat>) {
    && (forall a :: 0 <= a < |records| ==> RecordValid(records[a], stored))
    && (forall a, b :: 0 <= a <= b < |records| ==> records[a].snapshot <= records[b].snapshot)
  }

  /** An ack still in the window lists what was stored by then, except what was confirmed since. */
  ghost predicate AckCurrent(r: AckRecord, confirmed: set<nat>) {
    confirmed <= r.snapshot <= r.Content() + confirmed
  }

  ghost predicate AcksCurrent(records: seq<AckRecord>, low: nat, confirmed: set<nat>) {
    forall a :: low <= a < |records| ==> AckCurrent(records[a], confirmed)
  }

  ghost predicate AckLists(packet: AckPacket, base: nat, content: set<nat>) {
    packet.ranges == Runs(Nums(base, content))
  }

  ghost predicate AckWindowValid(acks: Window<AckEntry>, base: nat, ackBase: nat, records: seq<AckRecord>, low: nat) {
    && acks.begin == Wire(ackBase + low)
    && low + |acks.items| == |records|
    && forall k :: 0 <= k < |acks.items| ==> AckLists(acks.items[k].packet, base, records[low + k].Content())
  }

  ghost predicate BookValid(e: ReceivingEnd, base: nat, ackBase: nat) {
    && e.confirmed <= e.stored && Shape(e.confirmed, e.confirmedLow, e.confirmedLow + MAXIMUM_WINDOW_SIZE)
    && e.state.received == Nums(base, e.stored - e.confirmed)
    && RecordsValid(e.records, e.stored)
    && AcksCurrent(e.records, e.ackLow, e.confirmed)
    && AckWindowValid(e.state.acks, base, ackBase, e.records, e.ackLow)
  }

  ghost predicate ReceiverValid(e: ReceivingEnd, base: nat, ackBase: nat, log: seq<DataPacket>) {
    && e.state.Valid()
    && UnreadValid(e.state.unread, base, log, e.stored, e.consumed, e.delivered)
    && BookValid(e, base, ackBase)
  }

  lemma NothingReceivedIsValid(e: ReceivingEnd, base: nat, ackBase: nat)
    requires NothingReceived(e, Wire(base), Wire(ackBase))
    ensures ReceiverValid(e, base, ackBase, [])
  {
    assert Nums(base, e.stored - e.confirmed) == {};
  }

  // ---- A longer log changes nothing ----

  lemma LongerLog(e: ReceivingEnd, base: nat, ackBase: nat, log: seq<DataPacket>, log': seq<DataPacket>)
    requires ReceiverValid(e, base, ackBase, log) && |log| <= |log'| && log == log'[..|log|]
    ensures ReceiverValid(e, base, ackBase, log')
  {
    PayloadOfPrefix(log, log', e.consumed);
    assert forall i :: 0 <= i < |log| ==> log[i] == log'[i];
  }

  // ---- ReadData ----

  lemma SlotsTail(items: seq<Unread>, log: seq<DataPacket>, stored: set<nat>, consumed: nat)
    requires items != [] && Slots(items, log, stored, consumed) && OnlyFrontRead(items)
    ensures Slots(items[1..], log, stored, consumed + 1) && OnlyFrontRead(items[1..]) && FrontRead(items[1..]) == []
  {
    var rest := items[1..];
    forall k | 0 <= k < |rest| ensures Slot(rest[k], log[consumed + 1 + k], (consumed + 1 + k) in stored) {
      assert Slot(items[k + 1], log[consumed + (k + 1)], (consumed + (k + 1)) in stored);
    }
  }

  /** One round of the reading loop that empties the front slot. */
  lemma FrontConsumed(w: Window<Unread>, base: nat, log: seq<DataPacket>, stored: set<nat>, consumed: nat, delivered: seq<Byte>)
    requires UnreadValid(w, base, log, stored, consumed, delivered) && Sized(log)
    requires w.items != [] && !w.items[0].lost
    ensures UnreadValid(w.RemoveFront(1), base, log, stored, consumed + 1,
                        delivered + w.items[0].packet.data[w.items[0].bytesRead..])
  {
    var p := w.items[0];
    assert Slot(w.items[0], log[consumed + 0], (consumed + 0) in stored);
    WireAdd(base + consumed, 1);
    SlotsTail(w.items, log, stored, consumed);
    assert p.packet.data[..p.bytesRead] + p.packet.data[p.bytesRead..] == p.packet.data;
    assert delivered + p.packet.data[p.bytesRead..] == Payload(log, consumed + 1) + [];
  }

  /** Reading from a slot does not change what it holds. */
  lemma SlotsPartlyRead(items: seq<Unread>, log: seq<DataPacket>, stored: set<nat>, consumed: nat, read: nat)
    requires Slots(items, log, stored, consumed)
    requires items != [] && !items[0].lost && read < |items[0].packet.data|
    ensures Slots(items[0 := items[0].(bytesRead := read)], log, stored, consumed)
  {
    var items' := items[0 := items[0].(bytesRead := read)];
    forall k | 0 <= k < |items'| ensures Slot(items'[k], log[consumed + k], (consumed + k) in stored) {
      assert Slot(items[k], log[consumed + k], (consumed + k) in stored);
    }
  }

  lemma MoreOf(before: seq<Byte>, data: seq<Byte>, read: nat, length: nat)
    requires read + length <= |data|
    ensures before + data[..read] + data[read..read + length] == before + data[..read + length]
  {
    assert data[..read] + data[read..read + length] == data[..read + length];
  }

  lemma FrontPartlyRead(w: Window<Unread>, base: nat, log: seq<DataPacket>, stored: set<nat>, consumed: nat, delivered: seq<Byte>, length: nat)
    requires UnreadValid(w, base, log, stored, consumed, delivered)
    requires w.items != [] && !w.items[0].lost && w.items[0].bytesRead + length < |w.items[0].packet.data|
    ensures var p := w.items[0];
      UnreadValid(w.(items := w.items[0 := p.(bytesRead := p.bytesRead + length)]), base, log, stored, consumed,
                  delivered + p.packet.data[p.bytesRead..p.bytesRead + length])
  {
    var p := w.items[0];
    var items := w.items[0 := p.(bytesRead := p.bytesRead + length)];
    SlotsPartlyRead(w.items, log, stored, consumed, p.bytesRead + length);
    MoreOf(Payload(log, consumed), p.packet.data, p.bytesRead, length);
    assert FrontRead(items) == p.packet.data[..p.bytesRead + length];
  }

  function Rest(p: Unread): seq<Byte> {
    if |p.packet.data| > p.bytesRead then p.packet.data[p.bytesRead..] else []
  }

  /** The bytes that can be read before a lost slot or the end of the window is met. */
  function Readable(items: seq<Unread>): seq<Byte> {
    if items == [] || items[0].lost then [] else Rest(items[0]) + Readable(items[1..])
  }

  /** A front slot whose rest fits is emptied. */
  lemma ReadWhole(w: Window<Unread>, out: seq<Byte>, size: nat)
    requires w.items != [] && !w.items[0].lost && |out| < size && |out| + |Rest(w.items[0])| <= size
    ensures Read(w, out, size) == Read(w.RemoveFront(1), out + Rest(w.items[0]), size)
  {
    var p := w.items[0];
    if |p.packet.data| > p.bytesRead {
      assert p.packet.data[p.bytesRead..p.bytesRead + |Rest(p)|] == Rest(p);
    } else {
      assert out + Rest(p) == out;
    }
  }

  /** A front slot whose rest does not fit is read in part, and the buffer is full. */
  lemma ReadPart(w: Window<Unread>, out: seq<Byte>, size: nat)
    requires w.items != [] && !w.items[0].lost && |out| < size < |out| + |Rest(w.items[0])|
    ensures var p := w.items[0]; var r := Read(w, out, size); var length := size - |out|;
      && r.data == out + Rest(p)[..length]
      && r.window.items == [p.(bytesRead := p.bytesRead + length)] + w.items[1..]
  {
    var p, length := w.items[0], size - |out|;
    assert p.packet.data[p.bytesRead..p.bytesRead + length] == Rest(p)[..length];
  }

  /** Reading moves bytes and loses none: what comes out followed by what is left is what was there, and
      as much comes out as fits. */
  lemma {:induction false} ReadConserves(w: Window<Unread>, out: seq<Byte>, size: nat)
    requires |out| <= size
    ensures var r := Read(w, out, size);
      && r.data + Readable(r.window.items) == out + Readable(w.items)
      && |r.data| == Min(size, |out| + |Readable(w.items)|)
    decreases |w.items|
  {
    if w.items == [] || |out| >= size || w.items[0].lost {
      assert Read(w, out, size) == ReadResult(w, out);
    } else if |out| + |Rest(w.items[0])| <= size {
      ReadWhole(w, out, size);
      ReadConserves(w.RemoveFront(1), out + Rest(w.items[0]), size);
      Associate(out, Rest(w.items[0]), Readable(w.items[1..]));
    } else {
      PartConserves(w, out, size);
    }
  }

  lemma Associate(a: seq<Byte>, b: seq<Byte>, c: seq<Byte>)
    ensures (a + b) + c == a + (b + c)
  {
  }

  lemma PartConserves(w: Window<Unread>, out: seq<Byte>, size: nat)
    requires w.items != [] && !w.items[0].lost && |out| < size < |out| + |Rest(w.items[0])|
    ensures var r := Read(w, out, size);
      r.data + Readable(r.window.items) == out + Readable(w.items) && |r.data| == size
  {
    var r := Read(w, out, size);
    ReadPart(w, out, size);
    assert Readable(w.items) == Rest(w.items[0]) + Readable(w.items[1..]);
    PartBytes(w.items[0], w.items[1..], out, size - |out|, r.data, r.window.items);
  }

  lemma PartBytes(p: Unread, items: seq<Unread>, out: seq<Byte>, length: nat, data: seq<Byte>, left: seq<Unread>)
    requires !p.lost && length < |Rest(p)|
    requires data == out + Rest(p)[..length] && left == [p.(bytesRead := p.bytesRead + length)] + items
    ensures data + Readable(left) == out + (Rest(p) + Readable(items)) && |data| == |out| + length
  {
    ReadableAfterPart(p, length, items);
    Regroup(out, Rest(p), Readable(items), length);
  }

  lemma ReadableAfterPart(p: Unread, length: nat, items: seq<Unread>)
    requires !p.lost && length < |Rest(p)|
    ensures Readable([p.(bytesRead := p.bytesRead + length)] + items) == Rest(p)[length..] + Readable(items)
  {
    var p' := p.(bytesRead := p.bytesRead + length);
    assert ([p'] + items)[1..] == items;
    assert Rest(p') == Rest(p)[length..];
  }

  lemma Regroup(out: seq<Byte>, rest: seq<Byte>, later: seq<Byte>, length: nat)
    requires length <= |rest|
    ensures (out + rest[..length]) + (rest[length..] + later) == out + (rest + later)
  {
    assert rest == rest[..length] + rest[length..];
  }

  /** Reading hands out the next bytes of the log, whatever the buffer size. */
  lemma {:induction false} ReadDelivers(w: Window<Unread>, out: seq<Byte>, size: nat,
    base: nat, log: seq<DataPacket>, stored: set<nat>, consumed: nat, before: seq<Byte>)
    requires UnreadValid(w, base, log, stored, consumed, before + out) && Sized(log)
    ensures var r := Read(w, out, size);
      UnreadValid(r.window, base, log, stored, consumed + (|w.items| - |r.window.items|), before + r.data)
    decreases |w.items|
  {
    if w.items == [] || |out| >= size || w.items[0].lost {
      assert Read(w, out, size) == ReadResult(w, out);
    } else {
      assert Slot(w.items[0], log[consumed + 0], (consumed + 0) in stored);
      var rest := Rest(w.items[0]);
      if |out| + |rest| <= size {
        ReadWhole(w, out, size);
        Associate(before, out, rest);
        FrontConsumed(w, base, log, stored, consumed, before + out);
        ReadDelivers(w.RemoveFront(1), out + rest, size, base, log, stored, consumed + 1, before);
      } else {
        PartDelivers(w, out, size, base, log, stored, consumed, before);
      }
    }
  }

  lemma PartDelivers(w: Window<Unread>, out: seq<Byte>, size: nat,
    base: nat, log: seq<DataPacket>, stored: set<nat>, consumed: nat, before: seq<Byte>)
    requires UnreadValid(w, base, log, stored, consumed, before + out)
    requires w.items != [] && !w.items[0].lost && |out| < size < |out| + |Rest(w.items[0])|
    ensures var r := Read(w, out, size); UnreadValid(r.window, base, log, stored, consumed, before + r.data)
  {
    var p, length := w.items[0], size - |out|;
    ReadPartIs(w, out, size);
    FrontPartlyRead(w, base, log, stored, consumed, before + out, length);
    Associate(before, out, p.packet.data[p.bytesRead..p.bytesRead + length]);
  }

  lemma ReadPartIs(w: Window<Unread>, out: seq<Byte>, size: nat)
    requires w.items != [] && !w.items[0].lost && |out| < size < |out| + |Rest(w.items[0])|
    ensures var p, length := w.items[0], size - |out|;
      Read(w, out, size) == ReadResult(w.(items := w.items[0 := p.(bytesRead := p.bytesRead + length)]),
                                       out + p.packet.data[p.bytesRead..p.bytesRead + length])
  {
  }

  lemma ReadOutKeeps(e: ReceivingEnd, size: nat, base: nat, ackBase: nat, log: seq<DataPacket>)
    requires ReceiverValid(e, base, ackBase, log) && Sized(log)
    ensures ReceiverValid(ReadOut(e, size), base, ackBase, log)
  {
    assert e.delivered + [] == e.delivered;
    ReadDelivers(e.state.unread, [], size, base, log, e.stored, e.consumed, e.delivered);
  }

  // ---- HandleData ----

  function Blank(m: nat): seq<Unread> { seq(m, i => RESERVED) }

  function Room(w: Window<Unread>): nat { if w.IsFull() then 0 else w.maximumSize - |w.items| }

  lemma NotComingSoon(w: Window<Unread>, base: nat, hi: nat, i: nat)
    requires w.End() == Wire(base + hi) && i < hi && hi + MAXIMUM_WINDOW_SIZE <= i + MODULUS
    ensures Reserve(w, Wire(base + i)) == w
  {
    OffsetBackwards(base + hi, base + i);
  }

  lemma EndAfterReserve(w: Window<Unread>, i: nat)
    requires w.End() == Wire(i)
    ensures w.Append(RESERVED).End() == Wire(i + 1)
  {
    WireAdd(i, 1);
    WireAdd(w.begin + |w.items|, 1);
  }

  /** A packet at most 512 ahead of the window makes it grow up to that packet, or until it is full. */
  lemma {:induction false} ReserveReaches(w: Window<Unread>, base: nat, hi: nat, i: nat)
    requires w.End() == Wire(base + hi) && hi <= i + 1 <= hi + MAXIMUM_WINDOW_SIZE
    ensures Reserve(w, Wire(base + i)) == w.(items := w.items + Blank(Min(i + 1 - hi, Room(w))))
    decreases Room(w)
  {
    if hi == i + 1 {
      NotComingSoon(w, base, hi, i);
      assert w.items + Blank(0) == w.items;
    } else if w.IsFull() {
      assert w.items + Blank(0) == w.items;
    } else {
      OffsetOfWires(base + hi, base + i);
      var w1 := w.Append(RESERVED);
      EndAfterReserve(w, base + hi);
      ReserveReaches(w1, base, hi + 1, i);
      var m := Min(i + 1 - hi, Room(w));
      assert Min(i + 1 - (hi + 1), Room(w1)) == m - 1;
      assert [RESERVED] + Blank(m - 1) == Blank(m);
      assert w1.items + Blank(m - 1) == w.items + Blank(m);
    }
  }

  /** Where the window ends after HandleData made room for the packet with index i. */
  function NewHigh(w: Window<Unread>, hi: nat, i: nat): (h: nat)
    ensures hi <= h && (h == hi || h <= i + 1)
  {
    if i < hi then hi else hi + Min(i + 1 - hi, Room(w))
  }

  /** No packet that was really sent is out of reach: it is consumed, in the window or expected soon. */
  lemma ReserveForIndex(w: Window<Unread>, base: nat, hi: nat, i: nat)
    requires w.End() == Wire(base + hi) && i < hi + MAXIMUM_WINDOW_SIZE && hi + MAXIMUM_WINDOW_SIZE <= i + MODULUS
    ensures Reserve(w, Wire(base + i)) == w.(items := w.items + Blank(NewHigh(w, hi, i) - hi))
  {
    if i < hi {
      NotComingSoon(w, base, hi, i);
      assert w.items + Blank(0) == w.items;
    } else {
      ReserveReaches(w, base, hi, i);
    }
  }

  /** A window contains a wire number exactly when it contains the index behind it. */
  lemma ContainsIndex<T>(w: Window<T>, base: nat, lo: nat, i: nat)
    requires w.begin == Wire(base + lo) && i < lo + MODULUS && lo + |w.items| <= i + MODULUS
    ensures w.Contains(Wire(base + i)) <==> lo <= i < lo + |w.items|
    ensures lo <= i ==> Offset(w.begin, Wire(base + i)) == i - lo
  {
    if lo <= i {
      OffsetOfWires(base + lo, base + i);
    } else if lo < i + MODULUS {
      OffsetBackwards(base + lo, base + i);
    }
  }

  lemma BlankSlots(items: seq<Unread>, m: nat, log: seq<DataPacket>, stored: set<nat>, consumed: nat)
    requires Slots(items, log, stored, consumed) && OnlyFrontRead(items)
    requires forall j :: j in stored ==> j < consumed + |items|
    requires consumed + |items| + m <= |log|
    ensures Slots(items + Blank(m), log, stored, consumed) && OnlyFrontRead(items + Blank(m))
    ensures FrontRead(items + Blank(m)) == FrontRead(items)
  {
    var items' := items + Blank(m);
    forall k | 0 <= k < |items'| ensures Slot(items'[k], log[consumed + k], (consumed + k) in stored) {
      if k < |items| {
        assert Slot(items[k], log[consumed + k], (consumed + k) in stored);
      }
    }
  }

  lemma ReservedKeeps(w: Window<Unread>, m: nat, base: nat, log: seq<DataPacket>, stored: set<nat>, consumed: nat, delivered: seq<Byte>)
    requires UnreadValid(w, base, log, stored, consumed, delivered)
    requires consumed + |w.items| + m <= |log| && |w.items| + m <= MAXIMUM_WINDOW_SIZE
    ensures UnreadValid(w.(items := w.items + Blank(m)), base, log, stored, consumed, delivered)
  {
    BlankSlots(w.items, m, log, stored, consumed);
  }

  lemma SlotFilled(items: seq<Unread>, k: nat, log: seq<DataPacket>, stored: set<nat>, consumed: nat)
    requires Slots(items, log, stored, consumed) && OnlyFrontRead(items) && Sized(log)
    requires k < |items| && items[k].lost
    ensures var items' := items[k := Unread(log[consumed + k], false, 0)];
      Slots(items', log, stored + {consumed + k}, consumed) && OnlyFrontRead(items') && FrontRead(items') == FrontRead(items)
  {
    var items' := items[k := Unread(log[consumed + k], false, 0)];
    forall i | 0 <= i < |items'| ensures Slot(items'[i], log[consumed + i], (consumed + i) in stored + {consumed + k}) {
      assert Slot(items[i], log[consumed + i], (consumed + i) in stored);
    }
    assert Slot(items[0], log[consumed + 0], (consumed + 0) in stored);
  }

  lemma FilledKeeps(w: Window<Unread>, k: nat, base: nat, log: seq<DataPacket>, stored: set<nat>, consumed: nat, delivered: seq<Byte>)
    requires UnreadValid(w, base, log, stored, consumed, delivered) && Sized(log)
    requires k < |w.items| && w.items[k].lost
    ensures UnreadValid(w.(items := w.items[k := Unread(log[consumed + k], false, 0)]), base, log,
                        stored + {consumed + k}, consumed, delivered)
  {
    SlotFilled(w.items, k, log, stored, consumed);
  }

  /** The numbers in an arriving packet are no older than the lifetime, and the log is no longer than
      the sender's window allows. */
  ghost predicate Arrives(e: ReceivingEnd, i: nat, log: seq<DataPacket>) {
    && i < |log| < i + LIFETIME
    && |log| <= e.consumed + |e.state.unread.items| + MAXIMUM_WINDOW_SIZE
  }

  lemma ReservedIs(e: ReceivingEnd, i: nat, base: nat, log: seq<DataPacket>)
    requires UnreadValid(e.state.unread, base, log, e.stored, e.consumed, e.delivered) && Arrives(e, i, log)
    ensures var w := e.state.unread.WithMaximumSize(e.state.control.windowSize);
      var hi := e.consumed + |w.items|;
      && Reserved(e, Wire(base + i)) == w.(items := w.items + Blank(NewHigh(w, hi, i) - hi))
      && UnreadValid(Reserved(e, Wire(base + i)), base, log, e.stored, e.consumed, e.delivered)
      && NewHigh(w, hi, i) <= |log| && NewHigh(w, hi, i) <= e.consumed + MAXIMUM_WINDOW_SIZE
  {
    var w := e.state.unread.WithMaximumSize(e.state.control.windowSize);
    var hi := e.consumed + |w.items|;
    assert UnreadValid(w, base, log, e.stored, e.consumed, e.delivered);
    assert w.End() == Wire(base + hi) by {
      WireAdd(base + e.consumed, |w.items|);
    }
    ReserveForIndex(w, base, hi, i);
    ReservedKeeps(w, NewHigh(w, hi, i) - hi, base, log, e.stored, e.consumed, e.delivered);
  }

  /** What Stored does, in terms of the window with its reserved slots. */
  lemma StoredUnfolds(e: ReceivingEnd, f: DataFlight, w: Window<Unread>, n: SeqNum)
    requires n == f.packet.sequenceNumber && w == Reserved(e, n)
    ensures var e' := Stored(e, f); var k := Offset(w.begin, n);
      if w.Contains(n) && w.items[k].lost then
        && e'.stored == e.stored + {f.index} && e'.state.received == e.state.received + {n}
        && e'.state.unread == w.(items := w.items[k := Unread(f.packet, false, 0)])
      else e'.stored == e.stored && e'.state.received == e.state.received && e'.state.unread == w
  {
  }

  lemma IndexInWindow(w: Window<Unread>, base: nat, lo: nat, i: nat, n: nat)
    requires w.begin == Wire(base + lo) && i < n < i + LIFETIME && lo + |w.items| <= n && |w.items| <= MAXIMUM_WINDOW_SIZE
    requires n <= lo + |w.items| + MAXIMUM_WINDOW_SIZE
    ensures w.Contains(Wire(base + i)) <==> lo <= i < lo + |w.items|
    ensures lo <= i ==> Offset(w.begin, Wire(base + i)) == i - lo
  {
    ContainsIndex(w, base, lo, i);
  }

  /** A packet whose wire number the window does or does not contain, in terms of its index. */
  lemma StoredByIndex(e: ReceivingEnd, f: DataFlight, w: Window<Unread>, base: nat, n: nat)
    requires f.packet.sequenceNumber == Wire(base + f.index) && w == Reserved(e, Wire(base + f.index))
    requires w.begin == Wire(base + e.consumed) && |w.items| <= MAXIMUM_WINDOW_SIZE
    requires f.index < n < f.index + LIFETIME && e.consumed + |w.items| <= n <= e.consumed + |w.items| + MAXIMUM_WINDOW_SIZE
    ensures var e' := Stored(e, f); var k := f.index - e.consumed;
      if 0 <= k < |w.items| && w.items[k].lost then
        && e'.stored == e.stored + {f.index} && e'.state.received == e.state.received + {Wire(base + f.index)}
        && e'.state.unread == w.(items := w.items[k := Unread(f.packet, false, 0)])
      else e'.stored == e.stored && e'.state.received == e.state.received && e'.state.unread == w
  {
    IndexInWindow(w, base, e.consumed, f.index, n);
    StoredUnfolds(e, f, w, f.packet.sequenceNumber);
  }

  /** Where an arriving packet goes: into its slot if the window has one that is lost, and nowhere else. */
  lemma StoredIs(e: ReceivingEnd, f: DataFlight, base: nat, log: seq<DataPacket>)
    requires UnreadValid(e.state.unread, base, log, e.stored, e.consumed, e.delivered) && Numbered(log, base)
    requires Arrives(e, f.index, log) && f.packet == log[f.index]
    ensures var w := Reserved(e, Wire(base + f.index)); var e' := Stored(e, f); var k := f.index - e.consumed;
      && UnreadValid(w, base, log, e.stored, e.consumed, e.delivered)
      && if 0 <= k < |w.items| && w.items[k].lost then
           && e'.stored == e.stored + {f.index} && e'.state.received == e.state.received + {Wire(base + f.index)}
           && e'.state.unread == w.(items := w.items[k := Unread(log[f.index], false, 0)])
         else e'.stored == e.stored && e'.state.received == e.state.received && e'.state.unread == w
  {
    var w := Reserved(e, Wire(base + f.index));
    ReservedIs(e, f.index, base, log);
    ReservedEnd(e, w, f.index, base, log);
    StoredByIndex(e, f, w, base, |log|);
  }

  /** Bounds on the window with its reserved slots. */
  lemma ReservedEnd(e: ReceivingEnd, w: Window<Unread>, i: nat, base: nat, log: seq<DataPacket>)
    requires UnreadValid(w, base, log, e.stored, e.consumed, e.delivered) && Arrives(e, i, log)
    requires |e.state.unread.items| <= |w.items|
    ensures w.begin == Wire(base + e.consumed) && |w.items| <= MAXIMUM_WINDOW_SIZE
    ensures e.consumed + |w.items| <= |log| <= e.consumed + |w.items| + MAXIMUM_WINDOW_SIZE
  {
  }

  /** A slot is lost exactly when its packet is not stored. */
  lemma LostSlot(w: Window<Unread>, k: nat, base: nat, log: seq<DataPacket>, stored: set<nat>, consumed: nat, delivered: seq<Byte>)
    requires UnreadValid(w, base, log, stored, consumed, delivered) && k < |w.items|
    ensures w.items[k].lost <==> consumed + k !in stored
  {
    assert Slot(w.items[k], log[consumed + k], (consumed + k) in stored);
  }

  lemma StoredUnread(e: ReceivingEnd, f: DataFlight, base: nat, log: seq<DataPacket>)
    requires UnreadValid(e.state.unread, base, log, e.stored, e.consumed, e.delivered) && Sized(log) && Numbered(log, base)
    requires Arrives(e, f.index, log) && f.packet == log[f.index]
    ensures var e' := Stored(e, f);
      UnreadValid(e'.state.unread, base, log, e'.stored, e'.consumed, e'.delivered)
  {
    var e' := Stored(e, f);
    StoredIs(e, f, base, log);
    PlacedKeeps(Reserved(e, Wire(base + f.index)), f.index, base, log, e.stored, e.consumed, e.delivered,
                e'.state.unread, e'.stored);
  }

  /** A window in which packet i was put into its slot, or nowhere. */
  lemma PlacedKeeps(w: Window<Unread>, i: nat, base: nat, log: seq<DataPacket>, stored: set<nat>, consumed: nat,
    delivered: seq<Byte>, w': Window<Unread>, stored': set<nat>)
    requires UnreadValid(w, base, log, stored, consumed, delivered) && Sized(log) && i < |log|
    requires var k := i - consumed;
      if 0 <= k < |w.items| && w.items[k].lost then
        stored' == stored + {i} && w' == w.(items := w.items[k := Unread(log[i], false, 0)])
      else stored' == stored && w' == w
    ensures UnreadValid(w', base, log, stored', consumed, delivered)
  {
    var k := i - consumed;
    if 0 <= k < |w.items| && w.items[k].lost {
      FilledKeeps(w, k, base, log, stored, consumed, delivered);
    }
  }

  lemma NumsInsert(base: nat, s: set<nat>, j: nat)
    ensures Nums(base, s + {j}) == Nums(base, s) + {Wire(base + j)}
  {
  }

  lemma RecordsGrow(records: seq<AckRecord>, stored: set<nat>, stored': set<nat>)
    requires RecordsValid(records, stored) && stored <= stored'
    ensures RecordsValid(records, stored')
  {
    forall a | 0 <= a < |records| ensures RecordValid(records[a], stored') {
      assert RecordValid(records[a], stored);
    }
  }

  /** Which index a stored packet adds: its own, and only if it was not there. */
  lemma StoredSet(e: ReceivingEnd, f: DataFlight, base: nat, log: seq<DataPacket>)
    requires UnreadValid(e.state.unread, base, log, e.stored, e.consumed, e.delivered) && Numbered(log, base)
    requires Arrives(e, f.index, log) && f.packet == log[f.index]
    ensures var e' := Stored(e, f);
      || (e'.stored == e.stored && e'.state.received == e.state.received)
      || (f.index !in e.stored && e'.stored == e.stored + {f.index} &&
          e'.state.received == e.state.received + {Wire(base + f.index)})
  {
    var w, k := Reserved(e, Wire(base + f.index)), f.index - e.consumed;
    StoredIs(e, f, base, log);
    if 0 <= k < |w.items| {
      LostSlot(w, k, base, log, e.stored, e.consumed, e.delivered);
    }
  }

  lemma StoredBook(e: ReceivingEnd, f: DataFlight, base: nat, ackBase: nat, log: seq<DataPacket>)
    requires ReceiverValid(e, base, ackBase, log) && Sized(log) && Numbered(log, base)
    requires Arrives(e, f.index, log) && f.packet == log[f.index]
    ensures BookValid(Stored(e, f), base, ackBase)
  {
    var e' := Stored(e, f);
    StoredSet(e, f, base, log);
    RecordsGrow(e.records, e.stored, e'.stored);
    if e'.stored != e.stored {
      NumsInsert(base, e.stored - e.confirmed, f.index);
      assert e'.stored - e'.confirmed == (e.stored - e.confirmed) + {f.index};
    }
  }

  lemma StoredKeeps(e: ReceivingEnd, f: DataFlight, base: nat, ackBase: nat, log: seq<DataPacket>)
    requires ReceiverValid(e, base, ackBase, log) && Sized(log) && Numbered(log, base)
    requires Arrives(e, f.index, log) && f.packet == log[f.index]
    ensures ReceiverValid(Stored(e, f), base, ackBase, log)
    ensures e.stored <= Stored(e, f).stored <= e.stored + {f.index}
  {
    StoreKeepsValid(e.state, f.packet);
    StoredUnread(e, f, base, log);
    StoredBook(e, f, base, ackBase, log);
    StoredSet(e, f, base, log);
  }

  // ---- Generating an ack ----

  lemma RecordAppended(e: ReceivingEnd, low: nat)
    requires RecordsValid(e.records, e.stored) && AcksCurrent(e.records, e.ackLow, e.confirmed)
    requires e.confirmed <= e.stored && e.ackLow <= low
    requires Shape(e.stored, e.consumed, e.consumed + MAXIMUM_WINDOW_SIZE)
    requires Shape(e.confirmed, e.confirmedLow, e.confirmedLow + MAXIMUM_WINDOW_SIZE)
    ensures var records := e.records + [NewRecord(e)];
      RecordsValid(records, e.stored) && AcksCurrent(records, low, e.confirmed)
  {
    var r := NewRecord(e);
    var records := e.records + [r];
    forall a | 0 <= a < |records| ensures RecordValid(records[a], e.stored) {
      if a < |e.records| {
        assert RecordValid(e.records[a], e.stored);
      }
    }
    forall a, b | 0 <= a <= b < |records| ensures records[a].snapshot <= records[b].snapshot {
      if b == |e.records| {
        assert RecordValid(records[a], e.stored);
      }
    }
    forall a | low <= a < |records| ensures AckCurrent(records[a], e.confirmed) {
      if a < |e.records| {
        assert AckCurrent(e.records[a], e.confirmed);
      }
    }
  }

  lemma AckRoomKeeps(acks: Window<AckEntry>, base: nat, ackBase: nat, records: seq<AckRecord>, low: nat)
    requires AckWindowValid(acks, base, ackBase, records, low)
    ensures AckWindowValid(AckRoom(acks), base, ackBase, records, low + (|acks.items| - |AckRoom(acks).items|))
  {
    if acks.IsFull() && acks.items != [] {
      WireAdd(ackBase + low, 1);
      var acks' := AckRoom(acks);
      forall k | 0 <= k < |acks'.items| ensures AckLists(acks'.items[k].packet, base, records[low + 1 + k].Content()) {
        assert AckLists(acks.items[k + 1].packet, base, records[low + (k + 1)].Content());
      }
    }
  }

  lemma AckWindowAppends(acks: Window<AckEntry>, entry: AckEntry, base: nat, ackBase: nat, records: seq<AckRecord>, low: nat, r: AckRecord)
    requires AckWindowValid(acks, base, ackBase, records, low) && AckLists(entry.packet, base, r.Content())
    ensures AckWindowValid(acks.Append(entry), base, ackBase, records + [r], low)
    ensures acks.End() == Wire(ackBase + |records|)
  {
    WireAdd(ackBase + low, |acks.items|);
    var acks' := acks.Append(entry);
    var records' := records + [r];
    forall k | 0 <= k < |acks'.items| ensures AckLists(acks'.items[k].packet, base, records'[low + k].Content()) {
      if k < |acks.items| {
        assert AckLists(acks.items[k].packet, base, records[low + k].Content());
      }
    }
  }

  ghost predicate AckFlightValid(f: AckFlight, base: nat, ackBase: nat, records: seq<AckRecord>) {
    && f.index < |records|
    && f.packet.ackSequenceNumber == Wire(ackBase + f.index)
    && AckLists(f.packet, base, records[f.index].Content())
  }

  lemma AckAddedBook(e: ReceivingEnd, now: int, statistics: LinkStatistics, base: nat, ackBase: nat)
    requires BookValid(e, base, ackBase) && e.state.Valid()
    requires Shape(e.stored, e.consumed, e.consumed + MAXIMUM_WINDOW_SIZE)
    ensures BookValid(AckAdded(e, now, statistics).end, base, ackBase)
    ensures forall f :: f in AckAdded(e, now, statistics).acks ==>
      AckFlightValid(f, base, ackBase, AckAdded(e, now, statistics).end.records)
  {
    var reply := AckAdded(e, now, statistics);
    var r := AddAckToWindow(e.state, now, statistics);
    if r.ack != None {
      var e' := reply.end;
      var room := AckRoom(e.state.acks);
      RecordAppended(e, e'.ackLow);
      AckRoomKeeps(e.state.acks, base, ackBase, e.records, e.ackLow);
      AckWindowAppends(room, AckEntry(r.ack.value, now), base, ackBase, e.records, e'.ackLow, NewRecord(e));
    }
  }

  /** Adding an ack changes nothing about what is stored and read. */
  lemma AckAddedLeaves(e: ReceivingEnd, now: int, statistics: LinkStatistics)
    requires e.state.Valid()
    ensures var e' := AckAdded(e, now, statistics).end;
      && e'.state.Valid() && e'.state.unread == e.state.unread && e'.stored == e.stored
      && e'.consumed == e.consumed && e'.delivered == e.delivered
  {
  }

  lemma AckAddedKeeps(e: ReceivingEnd, now: int, statistics: LinkStatistics, base: nat, ackBase: nat, log: seq<DataPacket>)
    requires ReceiverValid(e, base, ackBase, log)
    ensures ReceiverValid(AckAdded(e, now, statistics).end, base, ackBase, log)
    ensures forall f :: f in AckAdded(e, now, statistics).acks ==>
      AckFlightValid(f, base, ackBase, AckAdded(e, now, statistics).end.records)
  {
    AckAddedBook(e, now, statistics, base, ackBase);
    AckAddedLeaves(e, now, statistics);
  }

  /** The timer decides nothing about what is stored and acknowledged. */
  lemma RetimedKeeps(e: ReceivingEnd, timer: Option<int>, base: nat, ackBase: nat, log: seq<DataPacket>)
    requires ReceiverValid(e, base, ackBase, log)
    ensures ReceiverValid(e.(timer := timer), base, ackBase, log)
  {
    assert BookValid(e.(timer := timer), base, ackBase);
  }

  /** What a reply of the receiving end adds to its history. */
  ghost predicate ReplyValid(e: ReceivingEnd, reply: Reply, base: nat, ackBase: nat, log: seq<DataPacket>) {
    && ReceiverValid(reply.end, base, ackBase, log)
    && |e.records| <= |reply.end.records| && (forall a :: 0 <= a < |e.records| ==> reply.end.records[a] == e.records[a])
    && reply.end.confirmed == e.confirmed
    && (forall f :: f in reply.acks ==> AckFlightValid(f, base, ackBase, reply.end.records))
  }

  lemma TickedKeeps(e: ReceivingEnd, now: int, statistics: LinkStatistics, base: nat, ackBase: nat, log: seq<DataPacket>)
    requires ReceiverValid(e, base, ackBase, log)
    ensures ReplyValid(e, Ticked(e, now, statistics), base, ackBase, log)
    ensures Ticked(e, now, statistics).end.stored == e.stored
  {
    var r := AckAdded(e, now, statistics);
    AckAddedKeeps(e, now, statistics, base, ackBase, log);
    RetimedKeeps(r.end, Soonest(e.timer, AckDeadline(r.end.state.acks)), base, ackBase, log);
  }

  lemma HandleTickKeeps(e: ReceivingEnd, next: int, now: int, statistics: LinkStatistics, base: nat, ackBase: nat, log: seq<DataPacket>)
    requires ReceiverValid(e, base, ackBase, log)
    ensures var reply := HandleTick(e, next, now, statistics);
      ReplyValid(e, reply, base, ackBase, log) && reply.end.stored == e.stored && reply.end.timer.Some?
  {
    RetimedKeeps(e, Some(next), base, ackBase, log);
    TickedKeeps(e.(timer := Some(next)), now, statistics, base, ackBase, log);
  }

  lemma TickedIfFullKeeps(e: ReceivingEnd, now: int, statistics: LinkStatistics, base: nat, ackBase: nat, log: seq<DataPacket>)
    requires ReceiverValid(e, base, ackBase, log)
    ensures var reply := TickedIfFull(e, now, statistics);
      ReplyValid(e, reply, base, ackBase, log) && reply.end.stored == e.stored
  {
    TickedKeeps(e, now, statistics, base, ackBase, log);
  }

  lemma HandleDataKeeps(e: ReceivingEnd, f: DataFlight, now: int, statistics: LinkStatistics, base: nat, ackBase: nat, log: seq<DataPacket>)
    requires ReceiverValid(e, base, ackBase, log) && Sized(log) && Numbered(log, base)
    requires Arrives(e, f.index, log) && f.packet == log[f.index]
    ensures var reply := HandleData(e, f, now, statistics);
      && ReplyValid(e, reply, base, ackBase, log)
      && e.stored <= reply.end.stored <= e.stored + {f.index} && reply.end.timer.Some?
  {
    StoredKeeps(e, f, base, ackBase, log);
    var r := TickedIfFull(Stored(e, f), now, statistics);
    TickedIfFullKeeps(Stored(e, f), now, statistics, base, ackBase, log);
    RetimedKeeps(r.end, Rearmed(r.end.timer, now), base, ackBase, log);
  }

  // ---- Taking in an ack-of-ack ----

  /** Every index of s is within a lifetime of n. */
  ghost predicate Young(s: set<nat>, n: nat) {
    forall j :: j in s ==> j < n < j + LIFETIME
  }

  lemma NumsMember(base: nat, s: set<nat>, j: nat, n: nat)
    requires Young(s, n) && j < n < j + LIFETIME
    ensures Wire(base + j) in Nums(base, s) <==> j in s
  {
    if Wire(base + j) in Nums(base, s) {
      var i :| i in s && Wire(base + j) == Wire(base + i);
      WireInjective(base + i, base + j);
    }
  }

  /** Erasing by wire number erases the right indices, as long as all of them are young. */
  lemma NumsDifference(base: nat, s: set<nat>, t: set<nat>, n: nat)
    requires Young(s, n) && Young(t, n)
    ensures Nums(base, s) - Nums(base, t) == Nums(base, s - t)
  {
    forall m ensures m in Nums(base, s) - Nums(base, t) <==> m in Nums(base, s - t) {
      if m in Nums(base, s) {
        var i :| i in s && m == Wire(base + i);
        NumsMember(base, t, i, n);
        NumsMember(base, s - t, i, n);
      }
    }
  }

  lemma ErasedIs(received: set<nat>, packet: AckPacket, base: nat, content: set<nat>)
    requires AckLists(packet, base, content)
    ensures (set m | m in received && !Covers(packet.ranges, m)) == received - Nums(base, content)
  {
    RunsAreExact(Nums(base, content));
  }

  lemma ConfirmedBook(e: ReceivingEnd, e': ReceivingEnd, base: nat, ackBase: nat, a: nat, n: nat)
    requires BookValid(e, base, ackBase) && e.ackLow <= a < |e.records|
    requires Young(e.stored - e.confirmed, n) && Young(e.records[a].Content(), n)
    requires e'.records == e.records && e'.stored == e.stored && e'.ackLow == a + 1
    requires e'.confirmed == e.records[a].snapshot && e'.confirmedLow == e.records[a].low
    requires e'.state.received == e.state.received - Nums(base, e.records[a].Content())
    requires AckWindowValid(e'.state.acks, base, ackBase, e.records, a + 1)
    ensures BookValid(e', base, ackBase)
    ensures e'.confirmed <= e.confirmed + e.records[a].Content()
  {
    var r := e.records[a];
    assert RecordValid(r, e.stored) && AckCurrent(r, e.confirmed);
    NumsDifference(base, e.stored - e.confirmed, r.Content(), n);
    assert (e.stored - e.confirmed) - r.Content() == e.stored - r.snapshot;
    forall b | a + 1 <= b < |e.records| ensures AckCurrent(e.records[b], r.snapshot) {
      assert AckCurrent(e.records[b], e.confirmed);
    }
  }

  lemma AckWindowDrops(acks: Window<AckEntry>, base: nat, ackBase: nat, records: seq<AckRecord>, low: nat, k: nat)
    requires AckWindowValid(acks, base, ackBase, records, low) && k <= |acks.items|
    ensures AckWindowValid(acks.RemoveFront(k), base, ackBase, records, low + k)
  {
    WireAdd(ackBase + low, k);
    var acks' := acks.RemoveFront(k);
    forall i | 0 <= i < |acks'.items| ensures AckLists(acks'.items[i].packet, base, records[low + k + i].Content()) {
      assert AckLists(acks.items[k + i].packet, base, records[low + (k + i)].Content());
    }
  }

  /** An ack-of-ack for an ack in the window erases what the ack lists and drops the window up to it. */
  lemma AckOfAckErases(e: ReceivingEnd, a: nat, base: nat, ackBase: nat)
    requires AckWindowValid(e.state.acks, base, ackBase, e.records, e.ackLow) && |e.state.acks.items| <= MAXIMUM_WINDOW_SIZE
    requires e.ackLow <= a < |e.records| < a + LIFETIME
    ensures var e' := AckOfAck(e, Wire(ackBase + a));
      && e'.state.received == e.state.received - Nums(base, e.records[a].Content())
      && e'.state.acks == e.state.acks.RemoveFront(a - e.ackLow + 1) && e'.ackLow == a + 1
      && e'.records == e.records && e'.stored == e.stored
      && e'.confirmed == e.records[a].snapshot && e'.confirmedLow == e.records[a].low
  {
    var acks, k := e.state.acks, a - e.ackLow;
    ContainsIndex(acks, ackBase, e.ackLow, a);
    assert AckLists(acks.items[k].packet, base, e.records[e.ackLow + k].Content());
    ErasedIs(e.state.received, acks.items[k].packet, base, e.records[a].Content());
  }

  lemma AckOfAckBook(e: ReceivingEnd, a: nat, base: nat, ackBase: nat, n: nat)
    requires BookValid(e, base, ackBase) && |e.state.acks.items| <= MAXIMUM_WINDOW_SIZE
    requires e.ackLow <= a < |e.records| < a + LIFETIME
    requires Young(e.stored - e.confirmed, n) && Young(e.records[a].Content(), n)
    ensures BookValid(AckOfAck(e, Wire(ackBase + a)), base, ackBase)
    ensures AckOfAck(e, Wire(ackBase + a)).confirmed <= e.confirmed + e.records[a].Content()
  {
    AckOfAckErases(e, a, base, ackBase);
    AckWindowDrops(e.state.acks, base, ackBase, e.records, e.ackLow, a - e.ackLow + 1);
    ConfirmedBook(e, AckOfAck(e, Wire(ackBase + a)), base, ackBase, a, n);
  }

  /** An ack-of-ack changes neither what is stored nor the receive window. */
  lemma AckOfAckLeaves(e: ReceivingEnd, n: SeqNum)
    requires e.state.Valid() && e.ackLow + |e.state.acks.items| <= |e.records|
    ensures var e' := AckOfAck(e, n);
      && e'.state.Valid() && e'.state.unread == e.state.unread && e'.stored == e.stored && e'.records == e.records
      && e'.consumed == e.consumed && e'.delivered == e.delivered && e'.timer == e.timer
      && (!e.state.acks.Contains(n) ==> e' == e)
  {
  }

  /** An ack-of-ack for ack a confirms a's snapshot if a is still in the window and does nothing otherwise. */
  lemma AckOfAckKeeps(e: ReceivingEnd, a: nat, base: nat, ackBase: nat, log: seq<DataPacket>)
    requires ReceiverValid(e, base, ackBase, log)
    requires a < |e.records| < a + LIFETIME
    requires Young(e.stored - e.confirmed, |log|)
    requires e.ackLow <= a ==> Young(e.records[a].Content(), |log|)
    ensures var e' := AckOfAck(e, Wire(ackBase + a));
      && ReceiverValid(e', base, ackBase, log)
      && e'.stored == e.stored && e'.records == e.records
      && e'.confirmed <= e.confirmed + e.records[a].Content()
      && (e.ackLow <= a ==> e'.confirmed == e.records[a].snapshot)
  {
    AckOfAckLeaves(e, Wire(ackBase + a));
    if e.ackLow <= a {
      AckOfAckBook(e, a, base, ackBase, |log|);
      AckOfAckErases(e, a, base, ackBase);
    } else {
      ContainsIndex(e.state.acks, ackBase, e.ackLow, a);
    }
  }

  // ---- How many ranges an ack can have ----

  ghost predicate NoNeighbours(s: set<nat>) {
    forall j :: j in s ==> j + 1 !in s
  }

  lemma {:induction false} NoNeighboursCount(s: set<nat>, a: nat, length: nat)
    requires NoNeighbours(s) && forall j :: j in s ==> a <= j < a + length
    ensures 2 * |s| <= length + 1
    decreases length
  {
    if length == 0 {
      assert s == {};
    } else if a in s {
      var rest := s - {a};
      assert forall j :: j in rest ==> a + 2 <= j;
      if length == 1 {
        assert rest == {};
      } else {
        NoNeighboursCount(rest, a + 2, length - 2);
      }
    } else {
      assert forall j :: j in s ==> a + 1 <= j;
      NoNeighboursCount(s, a + 1, length - 1);
    }
  }

  /** The set difference of two shapes has few maximal runs: only near the two windows can it have gaps. */
  lemma StartsOfDifference(s: set<nat>, low: nat, c: set<nat>, settled: nat)
    requires Shape(s, low, low + MAXIMUM_WINDOW_SIZE) && Shape(c, settled, settled + MAXIMUM_WINDOW_SIZE)
    ensures |Starts(s - c)| <= 513
  {
    var starts := Starts(s - c);
    var bound := settled + MAXIMUM_WINDOW_SIZE + 1;
    var near := set j | j in starts && j < bound;
    var far := starts - near;
    forall j | j in starts ensures j + 1 !in starts {
      assert IsStart(s - c, j);
      assert !IsStart(s - c, j + 1);
    }
    forall j | j in near ensures settled <= j {
      assert IsStart(s - c, j);
    }
    NoNeighboursCount(near, settled, MAXIMUM_WINDOW_SIZE + 1);
    forall j | j in far ensures low + 1 <= j < low + MAXIMUM_WINDOW_SIZE {
      assert IsStart(s - c, j);
      assert j - 1 !in c;
    }
    NoNeighboursCount(far, low + 1, MAXIMUM_WINDOW_SIZE - 1);
    assert starts == near + far;
  }

  lemma {:induction false} NumsSize(base: nat, s: set<nat>)
    ensures |Nums(base, s)| <= |s|
    decreases |s|
  {
    if s == {} {
      assert Nums(base, s) == {};
    } else {
      var j :| j in s;
      NumsSize(base, s - {j});
      NumsInsert(base, s - {j}, j);
      assert (s - {j}) + {j} == s;
    }
  }

  /** On the wire at most one more run begins, where the numbers wrap to 0. */
  lemma StartsOnTheWire(base: nat, s: set<nat>)
    ensures |Starts(Nums(base, s))| <= |Starts(s)| + 1
  {
    var wires := Starts(Nums(base, s));
    var images := Nums(base, Starts(s));
    forall n | n in wires && n != 0 ensures n in images {
      assert IsStart(Nums(base, s), n);
      var j :| j in s && n == Wire(base + j);
      StartOfImage(base, s, j);
      assert j in Starts(s);
    }
    assert wires <= images + {0};
    SubsetSize(wires, images + {0});
    NumsSize(base, Starts(s));
  }

  lemma StartOfImage(base: nat, s: set<nat>, j: nat)
    requires j in s && Wire(base + j) != 0 && Wire(base + j) - 1 !in Nums(base, s)
    ensures IsStart(s, j)
  {
    WireBefore(base + j);
    if j > 0 {
      assert Wire(base + (j - 1)) == Wire(base + j) - 1;
    }
  }

  lemma WireBefore(i: nat)
    requires Wire(i) != 0
    ensures i > 0 && Wire(i - 1) == Wire(i) - 1
  {
    if i >= MODULUS {
      WireBefore(i - MODULUS);
    }
  }

  lemma {:induction false} SubsetSize(a: set<nat>, b: set<nat>)
    requires a <= b
    ensures |a| <= |b|
    decreases |b|
  {
    if b != {} {
      var x :| x in b;
      SubsetSize(a - {x}, b - {x});
    }
  }

  /** Every ack that is ever generated has at most 514 ranges. */
  lemma AckIsSmall(packet: AckPacket, base: nat, r: AckRecord, stored: set<nat>)
    requires AckLists(packet, base, r.Content()) && RecordValid(r, stored)
    ensures |packet.ranges| <= 514
  {
    RunsAreExact(Nums(base, r.Content()));
    StartsOnTheWire(base, r.Content());
    StartsOfDifference(r.snapshot, r.low, r.settled, r.settledLow);
  }
}
