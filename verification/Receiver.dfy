/** What a receiver does, as functions on values: the reference that the Receiver class is proved against. */
module ReceiverSpec {
  import opened SequenceNumbers
  import opened SlidingWindows
  import opened Packets
  import opened CongestionControls
  import opened AckRanges
  import opened TickTimers

  const RECEIVE_DELAY: int := 100
  const ACK_TIMEOUT: int := 1000
  const ACK_INTERVAL: nat := 16
  const EMPTY_PACKET := DataPacket(0, false, false, false, 0, 0, 0, [])

  /** A slot of the receive window; a lost slot is reserved but has no packet yet. */
  datatype Unread = Unread(packet: DataPacket, lost: bool, bytesRead: nat)
  const RESERVED := Unread(EMPTY_PACKET, true, 0)

  datatype AckEntry = AckEntry(packet: AckPacket, sendTime: int)

  /** What an ack reports besides sequence numbers and free space; no decision depends on it. */
  datatype LinkStatistics = LinkStatistics(
    destination: Uint32,
    roundTripTime: Uint32,
    roundTripTimeVariance: Uint32,
    packetsReceivingRate: Uint32,
    estimatedLinkCapacity: Uint32)

  datatype ReceiverState = ReceiverState(
    unread: Window<Unread>, acks: Window<AckEntry>, received: set<nat>, control: ReceiveControl)
  {
    ghost predicate Valid() {
      && unread.Valid() && acks.Valid() && control.Valid()
      && |acks.items| <= acks.maximumSize == DEFAULT_WINDOW_SIZE
      && (forall n :: n in received ==> n <= MAX_SEQUENCE_NUMBER)
    }
  }

  datatype Received = Received(state: ReceiverState, ack: Option<AckPacket>)

  datatype ReadResult = ReadResult(window: Window<Unread>, data: seq<Byte>)

  /** Copies bytes from the front of the window until `size` of them are out, or a lost slot or the end is met. */
  function Read(w: Window<Unread>, out: seq<Byte>, size: nat): (r: ReadResult)
    ensures |r.window.items| <= |w.items|
    decreases |w.items|
  {
    if w.items == [] || |out| >= size || w.items[0].lost then ReadResult(w, out)
    else
      var p := w.items[0];
      if |p.packet.data| > p.bytesRead then
        var length := Min(size - |out|, |p.packet.data| - p.bytesRead);
        var out' := out + p.packet.data[p.bytesRead..p.bytesRead + length];
        if p.bytesRead + length == |p.packet.data| then Read(w.RemoveFront(1), out', size)
        else ReadResult(w.(items := w.items[0 := p.(bytesRead := p.bytesRead + length)]), out')
      else Read(w.RemoveFront(1), out, size)
  }

  function ReadData(r: ReceiverState, size: nat): (ReceiverState, seq<Byte>) {
    var result := Read(r.unread, [], size);
    (r.(unread := result.window), result.data)
  }

  /** Reserves slots up to and including number n, if n is expected soon and there is room. */
  function Reserve(w: Window<Unread>, n: SeqNum): Window<Unread>
    decreases if w.IsFull() then 0 else w.maximumSize - |w.items|
  {
    if w.IsComingSoon(n) && !w.IsFull() then Reserve(w.Append(RESERVED), n) else w
  }

  /** HandleData up to the point where it may send an ack. */
  function Store(r: ReceiverState, packet: DataPacket): ReceiverState {
    var n := packet.sequenceNumber;
    var w := Reserve(r.unread.WithMaximumSize(r.control.windowSize), n);
    if w.Contains(n) && w.items[Offset(w.begin, n)].lost then
      ReceiverState(w.(items := w.items[Offset(w.begin, n) := Unread(packet, false, 0)]),
                    r.acks, r.received + {n}, r.control.OnDataPacketReceived())
    else r.(unread := w)
  }

  function AvailableBufferSize(w: Window<Unread>): (n: Uint32)
    requires w.Valid()
  {
    (if w.IsFull() then 0 else w.maximumSize - |w.items|) * MAX_DATA_SIZE
  }

  function NewAck(r: ReceiverState, n: SeqNum, statistics: LinkStatistics): AckPacket
    requires r.unread.Valid()
  {
    AckPacket(n, 0, statistics.destination, Runs(r.received),
      Some(AckInfo(statistics.roundTripTime, statistics.roundTripTimeVariance, AvailableBufferSize(r.unread),
                   statistics.packetsReceivingRate, statistics.estimatedLinkCapacity)))
  }

  /** The ack window with its oldest entry dropped when it is full. */
  function AckRoom(w: Window<AckEntry>): Window<AckEntry> {
    if w.IsFull() && w.items != [] then w.RemoveFront(1) else w
  }

  function AddAckToWindow(r: ReceiverState, now: int, statistics: LinkStatistics): Received
    requires r.unread.Valid()
  {
    var control := r.control.OnGenerateAck();
    if Runs(r.received) == [] then Received(r.(control := control), None)
    else
      var acks := AckRoom(r.acks);
      var packet := NewAck(r, acks.End(), statistics);
      Received(r.(acks := acks.Append(AckEntry(packet, now)), control := control), Some(packet))
  }

  /** When HandleTick asks for the next tick: an ack timeout after the latest ack that is in the window. */
  function AckDeadline(acks: Window<AckEntry>): Option<int> {
    if acks.items == [] then None else Some(acks.items[|acks.items| - 1].sendTime + ACK_TIMEOUT)
  }

  /** HandleData leaves a timer that is still to expire as it is and arms any other. */
  function Rearmed(expiry: Option<int>, now: int): Option<int> {
    if IsExpired(expiry, now) then Earlier(expiry, now + RECEIVE_DELAY) else expiry
  }

  /** Whether so many unconfirmed packets are stored that HandleData acknowledges them at once. */
  predicate AcksAtOnce(r: ReceiverState) { |r.received| % ACK_INTERVAL == 0 }

  /** Resizing bounds the window. */
  lemma ReserveKeeps(w: Window<Unread>, n: SeqNum)
    requires w.Valid()
    ensures Reserve(w, n).Valid()
    decreases if w.IsFull() then 0 else w.maximumSize - |w.items|
  {
  }

  lemma StoreKeepsValid(r: ReceiverState, packet: DataPacket)
    requires r.Valid()
    ensures Store(r, packet).Valid()
  {
    ReserveKeeps(r.unread.WithMaximumSize(r.control.windowSize), packet.sequenceNumber);
  }

  ghost function HandleData(r: ReceiverState, packet: DataPacket, now: int, statistics: LinkStatistics): Received
    requires r.Valid()
  {
    var r' := Store(r, packet);
    StoreKeepsValid(r, packet);
    if AcksAtOnce(r') then AddAckToWindow(r', now, statistics) else Received(r', None)
  }

  function HandleAckOfAck(r: ReceiverState, n: SeqNum): ReceiverState {
    if !r.acks.Contains(n) then r
    else
      var k := Offset(r.acks.begin, n);
      var ranges := r.acks.items[k].packet.ranges;
      r.(received := (set m | m in r.received && !Covers(ranges, m)), acks := r.acks.RemoveFront(k + 1))
  }
}

/** The receiver: it puts packets in order, hands out their bytes, and acknowledges what it has stored. */
module Receivers {
  import opened SequenceNumbers
  import opened SlidingWindows
  import opened Packets
  import opened CongestionControls
  import opened TickTimers
  import opened AckRanges
  import opened ReceiverSpec

  class Receiver {
    const unread: SlidingWindow<Unread>
    const acks: SlidingWindow<AckEntry>
    const control: CongestionControl
    const timer: TickTimer
    var received: set<nat>

    ghost function State(): ReceiverState
      reads this, unread, acks, control
    {
      ReceiverState(unread.View(), acks.View(), received, control.ReceiveView())
    }

    ghost predicate Valid()
      reads this, unread, acks, control
    {
      unread.Valid() && acks.Valid() && control.Valid() && State().Valid()
    }

    constructor (control: CongestionControl, timer: TickTimer, initial: SeqNum, initialAck: SeqNum)
      requires control.Valid()
      ensures Valid() && this.control == control && this.timer == timer && fresh(unread) && fresh(acks)
      ensures State() == ReceiverState(Window(initial, [], DEFAULT_WINDOW_SIZE), Window(initialAck, [], DEFAULT_WINDOW_SIZE),
                                       {}, control.ReceiveView())
    {
      this.unread := new SlidingWindow(initial);
      this.acks := new SlidingWindow(initialAck);
      this.control := control;
      this.timer := timer;
      this.received := {};
    }

    method Reset(initial: SeqNum)
      requires Valid()
      modifies unread
      ensures Valid() && State() == old(State()).(unread := Window(initial, [], DEFAULT_WINDOW_SIZE))
    {
      unread.Reset(initial);
    }

    /** Although the loop removes items while it advances n, n stays at the front of the window. */
    method ReadData(size: nat) returns (data: seq<Byte>)
      requires Valid()
      modifies unread
      ensures Valid() && (State(), data) == ReceiverSpec.ReadData(old(State()), size)
    {
      ghost var goal := Read(unread.View(), [], size);
      data := [];
      var n := unread.begin;
      while n != unread.end && |data| < size
        invariant unread.Valid() && |data| <= size
        invariant |data| < size ==> n == unread.begin
        invariant unread.maximumSize == old(unread.maximumSize)
        invariant Read(unread.View(), data, size) == goal
        decreases |unread.items|, size - |data|
      {
        unread.Cursor(n, 0);
        var p := unread.Get(n);
        if p.lost {
          break;
        } else if |p.packet.data| > p.bytesRead {
          var length := Min(size - |data|, |p.packet.data| - p.bytesRead);
          data := data + p.packet.data[p.bytesRead..p.bytesRead + length];
          if |p.packet.data| == p.bytesRead + length {
            unread.Remove();
          } else {
            unread.Put(n, p.(bytesRead := p.bytesRead + length));
          }
        } else {
          unread.Remove();
        }
        n := Next(n);
      }
      if |data| < size {
        unread.Cursor(n, 0);
      }
    }

    method HandleData(packet: DataPacket, now: int, statistics: LinkStatistics) returns (ack: Option<AckPacket>)
      requires Valid()
      modifies this`received, unread, acks, timer, control`arrivals, control`receiveWindowSize
      ensures Valid()
      ensures Received(State(), ack) == ReceiverSpec.HandleData(old(State()), packet, now, statistics)
      ensures timer.expiry == Rearmed(
        if AcksAtOnce(State()) then Soonest(old(timer.expiry), AckDeadline(acks.View())) else old(timer.expiry), now)
    {
      StorePacket(packet);
      ack := None;
      if |received| % ACK_INTERVAL == 0 {
        ack := HandleTick(now, statistics);
      }
      if timer.Expired(now) {
        timer.TickAt(now + RECEIVE_DELAY);
      }
    }

    method StorePacket(packet: DataPacket)
      requires Valid()
      modifies this`received, unread, control`arrivals
      ensures Valid()
      ensures State() == Store(old(State()), packet)
    {
      unread.SetMaximumSize(control.receiveWindowSize);
      var n := packet.sequenceNumber;
      ghost var goal := Reserve(unread.View(), n);
      while unread.IsComingSoon(n) && !unread.IsFull()
        modifies unread
        invariant unread.Valid()
        invariant Reserve(unread.View(), n) == goal
        decreases if unread.IsFull() then 0 else unread.maximumSize - |unread.items|
      {
        var _ := unread.Append(RESERVED);
      }
      if unread.Contains(n) {
        var p := unread.Get(n);
        if p.lost {
          control.OnDataPacketReceived();
          unread.Put(n, Unread(packet, false, 0));
          received := received + {n};
        }
      }
    }

    method HandleAckOfAck(n: SeqNum)
      requires Valid()
      modifies this`received, acks
      ensures Valid()
      ensures State() == ReceiverSpec.HandleAckOfAck(old(State()), n)
    {
      if acks.Contains(n) {
        EraseRanges(acks.Get(n).packet.ranges);
      }
      RemoveThrough(n);
    }

    /** Removes acks from the front for as long as the window contains n. */
    method RemoveThrough(n: SeqNum)
      requires acks.Valid()
      modifies acks
      ensures acks.Valid()
      ensures var w := old(acks.View());
        acks.View() == if w.Contains(n) then w.RemoveFront(Offset(w.begin, n) + 1) else w
    {
      ghost var w := acks.View();
      ghost var k := 0;
      while acks.Contains(n)
        invariant 0 <= k <= |w.items| && acks.Valid()
        invariant acks.View() == w.RemoveFront(k)
        invariant w.Contains(n) ==> k <= Offset(w.begin, n) + 1
        invariant !w.Contains(n) ==> k == 0
        decreases |w.items| - k
      {
        AckCursor(w, n, k);
        WireAdd(w.begin + k, 1);
        acks.Remove();
        k := k + 1;
      }
      AckCursor(w, n, k);
    }

    method EraseRanges(ranges: seq<Range>)
      modifies this`received
      ensures received == set m | m in old(received) && !Covers(ranges, m)
    {
      var j := 0;
      while j < |ranges|
        invariant 0 <= j <= |ranges|
        invariant forall m :: m in received <==>
          m in old(received) && forall i :: 0 <= i < j ==> !(ranges[i].first <= m <= ranges[i].last)
      {
        var n := ranges[j].first;
        while n <= ranges[j].last
          invariant ranges[j].first <= n
          invariant forall m :: m in received <==>
            m in old(received) && (forall i :: 0 <= i < j ==> !(ranges[i].first <= m <= ranges[i].last)) &&
            !(ranges[j].first <= m <= ranges[j].last && m < n)
          decreases ranges[j].last + 1 - n
        {
          received := received - {n};
          n := n + 1;
        }
        j := j + 1;
      }
    }

    method HandleTick(now: int, statistics: LinkStatistics) returns (ack: Option<AckPacket>)
      requires Valid()
      modifies acks, timer, control`receiveWindowSize
      ensures Valid()
      ensures Received(State(), ack) == ReceiverSpec.AddAckToWindow(old(State()), now, statistics)
      ensures timer.expiry == Soonest(old(timer.expiry), AckDeadline(acks.View()))
    {
      ack := AddAckToWindow(now, statistics);
      if !acks.IsEmpty() {
        timer.TickAt(acks.items[|acks.items| - 1].sendTime + ACK_TIMEOUT);
      }
    }

    method AddAckToWindow(now: int, statistics: LinkStatistics) returns (ack: Option<AckPacket>)
      requires Valid()
      modifies acks, control`receiveWindowSize
      ensures Valid()
      ensures Received(State(), ack) == ReceiverSpec.AddAckToWindow(old(State()), now, statistics)
    {
      control.OnGenerateAck();
      var ranges := AddAckPacketSequenceNumbers();
      ack := None;
      if ranges != [] {
        if acks.IsFull() {
          acks.Remove();
        }
        var available := if unread.IsFull() then 0 else unread.maximumSize - unread.Size();
        var packet := AckPacket(acks.end, 0, statistics.destination, ranges,
          Some(AckInfo(statistics.roundTripTime, statistics.roundTripTimeVariance, available * MAX_DATA_SIZE,
                       statistics.packetsReceivingRate, statistics.estimatedLinkCapacity)));
        var _ := acks.Append(AckEntry(packet, now));
        ack := Some(packet);
      }
    }

    method AddAckPacketSequenceNumbers() returns (ranges: seq<Range>)
      ensures ranges == Runs(received)
      ensures IsRunLength(ranges, received)
    {
      ranges := CompressRuns(Ascending(received));
      RunsAreExact(received);
    }
  }

  /** The loops of AddAckPacketSequenceNumbers over the numbers of the set in ascending order. */
  method CompressRuns(numbers: seq<nat>) returns (ranges: seq<Range>)
    requires StrictlyIncreasing(numbers)
    ensures ranges == RunsOf(numbers, |numbers|)
  {
    ranges := [];
    var i := 0;
    while i < |numbers|
      invariant 0 <= i <= |numbers|
      invariant ranges == RunsOf(numbers, i)
      invariant ranges != [] && i < |numbers| ==> ranges[|ranges| - 1].last + 1 < numbers[i]
    {
      var first := numbers[i];
      var last := first;
      RunBegins(numbers, i, ranges);
      i := i + 1;
      while i < |numbers| && numbers[i] == last + 1
        invariant 0 < i <= |numbers| && last == numbers[i - 1]
        invariant ranges + [Range(first, last)] == RunsOf(numbers, i)
      {
        RunExtends(numbers, i, ranges, first);
        last := numbers[i];
        i := i + 1;
      }
      ranges := ranges + [Range(first, last)];
    }
  }

  /** A number that does not follow on the last range begins a run. */
  lemma RunBegins(numbers: seq<nat>, i: nat, ranges: seq<Range>)
    requires i < |numbers| && ranges == RunsOf(numbers, i)
    requires ranges != [] ==> ranges[|ranges| - 1].last + 1 < numbers[i]
    ensures ranges + [Range(numbers[i], numbers[i])] == RunsOf(numbers, i + 1)
  {
  }

  /** The next number extends the run that is being built. */
  lemma RunExtends(numbers: seq<nat>, i: nat, ranges: seq<Range>, first: nat)
    requires 0 < i < |numbers| && numbers[i] == numbers[i - 1] + 1
    requires ranges + [Range(first, numbers[i - 1])] == RunsOf(numbers, i)
    ensures ranges + [Range(first, numbers[i])] == RunsOf(numbers, i + 1)
  {
    var runs := ranges + [Range(first, numbers[i - 1])];
    assert runs[..|runs| - 1] == ranges;
    assert RunsOf(numbers, i + 1) == PushRun(runs, numbers[i]);
  }

  /** While the removing loop of HandleAckOfAck runs, n stays in the window until it is removed itself. */
  lemma AckCursor(w: Window<AckEntry>, n: SeqNum, k: nat)
    requires w.Valid() && k <= |w.items|
    requires w.Contains(n) ==> k <= Offset(w.begin, n) + 1
    requires !w.Contains(n) ==> k == 0
    ensures w.RemoveFront(k).Contains(n) <==> w.Contains(n) && k <= Offset(w.begin, n)
  {
    var w' := w.RemoveFront(k);
    if w.Contains(n) {
      var d := Offset(w.begin, n);
      if k <= d {
        assert w'.begin == Wire(w.begin + k);
        assert Wire(w'.begin + (d - k)) == n by { WireAdd(w.begin + k, d - k); }
        OffsetUnique(w'.begin, d - k);
      } else {
        assert w'.begin == Next(n) by { WireAdd(w.begin + d, 1); }
      }
    } else {
      assert w' == w;
    }
  }
}
