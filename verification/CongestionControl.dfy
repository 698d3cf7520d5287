/** The window and segment sizes that the two ends adapt as acks arrive and packets get lost. */
module CongestionControls {
  import opened SequenceNumbers

  const MAXIMUM_SEGMENT_SIZE: nat := 16
  const DEFAULT_DATA_SIZE: nat := 1450
  const MAX_DATA_SIZE: nat := 8162
  const MAX_ARRIVAL_TIMES: nat := 17

  const WIRELESS: nat := 0x0fff_ffff
  const E1: nat := 0xf1ff_ffff
  const ETHERNET_1G: nat := 0xff2f_ffff

  /** What the sending half keeps. */
  datatype SendControl = SendControl(
    windowSize: nat, dataSize: nat, lostPackets: nat, corruptedPackets: nat, allowedLost: nat)
  {
    predicate Valid() {
      && DEFAULT_WINDOW_SIZE <= windowSize <= MAXIMUM_WINDOW_SIZE && windowSize % MAXIMUM_SEGMENT_SIZE == 0
      && DEFAULT_DATA_SIZE <= dataSize <= MAX_DATA_SIZE
    }

    function AdjustedDataSize(): nat {
      if corruptedPackets + lostPackets > allowedLost
      then Max(DEFAULT_DATA_SIZE, 9 * dataSize / 10)
      else Min(MAX_DATA_SIZE, 3 * dataSize / 2)
    }

    function AdjustedWindowSize(available: nat, size: nat): nat
      requires windowSize >= MAXIMUM_SEGMENT_SIZE
    {
      if available >= size * MAXIMUM_SEGMENT_SIZE then Min(windowSize + MAXIMUM_SEGMENT_SIZE, MAXIMUM_WINDOW_SIZE)
      else if available < size * MAXIMUM_SEGMENT_SIZE / 2 then Max(windowSize - MAXIMUM_SEGMENT_SIZE, DEFAULT_WINDOW_SIZE)
      else windowSize
    }

    /** The sizes stay within their bounds whatever buffer the peer reports. */
    function OnAck(available: nat): (c: SendControl)
      requires Valid()
      ensures c.Valid()
    {
      SendControl(AdjustedWindowSize(available, AdjustedDataSize()), AdjustedDataSize(), 0, 0, allowedLost)
    }
  }

  /** What the receiving half keeps; of the arrival times only how many are recorded. */
  datatype ReceiveControl = ReceiveControl(arrivals: nat, windowSize: nat) {
    predicate Valid() {
      (windowSize == DEFAULT_WINDOW_SIZE || windowSize == MAXIMUM_WINDOW_SIZE) && arrivals <= MAX_ARRIVAL_TIMES
    }

    function OnDataPacketReceived(): ReceiveControl {
      this.(arrivals := Min(arrivals + 1, MAX_ARRIVAL_TIMES))
    }

    function OnGenerateAck(): ReceiveControl {
      if arrivals <= 8 then this else this.(windowSize := MAXIMUM_WINDOW_SIZE)
    }

    function BestReadBufferSize(): (n: nat)
      requires Valid()
      ensures 0 < n < 0x8000_0000
    {
      windowSize * MAX_DATA_SIZE
    }
  }

  function Min(a: nat, b: nat): nat { if a < b then a else b }
  function Max(a: nat, b: nat): nat { if a < b then b else a }

  datatype SendEvent = Ack(available: nat) | NegativeAck | SendTimeout | PeerConnectionType(allowed: nat)

  function SendControlAfter(c: SendControl, e: SendEvent): SendControl
    requires c.Valid()
  {
    match e
    case Ack(available) => c.OnAck(available)
    case NegativeAck => c.(corruptedPackets := c.corruptedPackets + 1)
    case SendTimeout => c.(lostPackets := c.lostPackets + 1)
    case PeerConnectionType(allowed) => c.(allowedLost := allowed)
  }

  /** The state after a whole run of events, which exists because every event keeps the bounds. */
  function SendControlRun(c: SendControl, events: seq<SendEvent>): (r: SendControl)
    requires c.Valid()
    ensures r.Valid()
    decreases |events|
  {
    if events == [] then c else SendControlRun(SendControlAfter(c, events[0]), events[1..])
  }

  const INITIAL_SEND_CONTROL := SendControl(DEFAULT_WINDOW_SIZE, DEFAULT_DATA_SIZE, 0, 0, 0)
  const INITIAL_RECEIVE_CONTROL := ReceiveControl(0, DEFAULT_WINDOW_SIZE)

  /** How many lost packets a connection tolerates, by the worse of the two ends' types. */
  function AllowedLost(peer: nat, local: nat, current: nat): nat {
    var worst := Min(peer, local);
    if worst <= WIRELESS then 5 else if worst <= E1 then 2 else if worst <= ETHERNET_1G then 1 else current
  }

  class CongestionControl {
    var sendWindowSize: nat
    var sendDataSize: nat
    var lostPackets: nat
    var corruptedPackets: nat
    var allowedLost: nat
    var receiveWindowSize: nat
    var arrivals: nat

    ghost function SendView(): SendControl
      reads this
    {
      SendControl(sendWindowSize, sendDataSize, lostPackets, corruptedPackets, allowedLost)
    }

    ghost function ReceiveView(): ReceiveControl
      reads this
    {
      ReceiveControl(arrivals, receiveWindowSize)
    }

    ghost predicate Valid()
      reads this
    {
      SendView().Valid() && ReceiveView().Valid()
    }

    constructor ()
      ensures Valid() && SendView() == INITIAL_SEND_CONTROL && ReceiveView() == INITIAL_RECEIVE_CONTROL
    {
      sendWindowSize, receiveWindowSize := DEFAULT_WINDOW_SIZE, DEFAULT_WINDOW_SIZE;
      sendDataSize := DEFAULT_DATA_SIZE;
      lostPackets, corruptedPackets, allowedLost, arrivals := 0, 0, 0, 0;
    }

    method OnAck(available: nat)
      requires Valid()
      modifies this`sendWindowSize, this`sendDataSize, this`lostPackets, this`corruptedPackets
      ensures Valid() && SendView() == old(SendView()).OnAck(available)
    {
      if corruptedPackets + lostPackets > allowedLost {
        sendDataSize := 9 * sendDataSize / 10;
        sendDataSize := Max(DEFAULT_DATA_SIZE, sendDataSize);
      } else {
        sendDataSize := 3 * sendDataSize / 2;
        sendDataSize := Min(MAX_DATA_SIZE, sendDataSize);
      }
      corruptedPackets := 0;
      lostPackets := 0;
      if available >= sendDataSize * MAXIMUM_SEGMENT_SIZE {
        sendWindowSize := sendWindowSize + MAXIMUM_SEGMENT_SIZE;
        sendWindowSize := Min(sendWindowSize, MAXIMUM_WINDOW_SIZE);
      } else if available < sendDataSize * MAXIMUM_SEGMENT_SIZE / 2 {
        sendWindowSize := sendWindowSize - MAXIMUM_SEGMENT_SIZE;
        sendWindowSize := Max(sendWindowSize, DEFAULT_WINDOW_SIZE);
      }
    }

    method OnNegativeAck()
      requires Valid()
      modifies this`corruptedPackets
      ensures Valid() && corruptedPackets == old(corruptedPackets) + 1
    {
      corruptedPackets := corruptedPackets + 1;
    }

    method OnSendTimeout()
      requires Valid()
      modifies this`lostPackets
      ensures Valid() && lostPackets == old(lostPackets) + 1
    {
      lostPackets := lostPackets + 1;
    }

    method OnDataPacketReceived()
      requires Valid()
      modifies this`arrivals
      ensures Valid() && ReceiveView() == old(ReceiveView()).OnDataPacketReceived()
    {
      arrivals := arrivals + 1;
      while arrivals > MAX_ARRIVAL_TIMES
        invariant arrivals == old(arrivals) + 1 || arrivals == MAX_ARRIVAL_TIMES
      {
        arrivals := arrivals - 1;
      }
    }

    method OnGenerateAck()
      requires Valid()
      modifies this`receiveWindowSize
      ensures Valid() && ReceiveView() == old(ReceiveView()).OnGenerateAck()
    {
      if arrivals <= 8 {
        return;
      }
      receiveWindowSize := MAXIMUM_WINDOW_SIZE;
    }

    method SetPeerConnectionType(peer: nat, local: nat)
      requires Valid()
      modifies this`allowedLost
      ensures Valid()
      ensures allowedLost == AllowedLost(peer, local, old(allowedLost))
    {
      var worst := Min(peer, local);
      if worst <= WIRELESS {
        allowedLost := 5;
      } else if worst <= E1 {
        allowedLost := 2;
      } else if worst <= ETHERNET_1G {
        allowedLost := 1;
      }
    }
  }
}

/** What the adaptation amounts to, in figures. */
module ControlLaws {
  import opened SequenceNumbers
  import opened CongestionControls

  /** The segment size falls by a tenth when more packets were lost than is tolerated and rises by a half
      otherwise, between 1450 and 8162. */
  predicate SegmentAdjusted(c: SendControl, c': SendControl) {
    if c.corruptedPackets + c.lostPackets > c.allowedLost then
      && c'.dataSize <= c.dataSize && (c.dataSize > 1450 ==> c'.dataSize < c.dataSize)
      && c'.dataSize >= 1450 && (c'.dataSize == 1450 || 10 * c'.dataSize <= 9 * c.dataSize < 10 * c'.dataSize + 10)
    else
      && c'.dataSize >= c.dataSize && (c.dataSize < 8162 ==> c'.dataSize > c.dataSize)
      && c'.dataSize <= 8162 && (c'.dataSize == 8162 || 2 * c'.dataSize <= 3 * c.dataSize < 2 * c'.dataSize + 2)
  }

  /** The window grows by 16 packets when the peer has room for 16 segments, shrinks by 16 when it has not even
      room for 8, and stays otherwise, between 64 and 512 packets. */
  predicate WindowAdjusted(c: SendControl, c': SendControl, available: nat) {
    if available >= 16 * c'.dataSize then
      if c.windowSize < 512 then c'.windowSize == c.windowSize + 16 else c'.windowSize == 512
    else if available < 8 * c'.dataSize then
      if c.windowSize > 64 then c'.windowSize == c.windowSize - 16 else c'.windowSize == 64
    else c'.windowSize == c.windowSize
  }

  lemma AckAdjusts(c: SendControl, available: nat)
    requires c.Valid()
    ensures SegmentAdjusted(c, c.OnAck(available)) && WindowAdjusted(c, c.OnAck(available), available)
    ensures var c' := c.OnAck(available); c'.lostPackets == c'.corruptedPackets == 0 && c'.allowedLost == c.allowedLost
  {
    Sixteens(c.windowSize);
  }

  lemma Sixteens(n: nat)
    ensures n % 16 == 0 && n < 512 ==> n + 16 <= 512
    ensures n % 16 == 0 && n > 64 ==> n - 16 >= 64
  {
  }

  /** Over every run of events the sizes stay within these bounds. */
  lemma SizesStayWithin(events: seq<SendEvent>)
    ensures var c := SendControlRun(INITIAL_SEND_CONTROL, events);
      64 <= c.windowSize <= 512 && c.windowSize % 16 == 0 && 1450 <= c.dataSize <= 8162
    ensures INITIAL_SEND_CONTROL.windowSize == 64 && INITIAL_SEND_CONTROL.dataSize == 1450
  {
  }

  function Acks(reported: seq<nat>): seq<SendEvent> {
    seq(|reported|, i requires 0 <= i < |reported| => Ack(reported[i]))
  }

  lemma FirstAck(c: SendControl, reported: seq<nat>)
    requires c.Valid() && reported != []
    ensures SendControlRun(c, Acks(reported)) == SendControlRun(c.OnAck(reported[0]), Acks(reported[1..]))
  {
    assert Acks(reported)[0] == Ack(reported[0]);
    assert Acks(reported)[1..] == Acks(reported[1..]);
  }

  /** Acks with room for 16 of the largest segments, and no losses in between, raise both sizes step by step. */
  lemma {:induction false} AcksRaise(c: SendControl, reported: seq<nat>)
    requires c.Valid() && c.corruptedPackets + c.lostPackets <= c.allowedLost
    requires forall i :: 0 <= i < |reported| ==> reported[i] >= 16 * 8162
    ensures var c' := SendControlRun(c, Acks(reported)); var n := |reported|;
      && c'.windowSize == (if c.windowSize + 16 * n <= 512 then c.windowSize + 16 * n else 512)
      && (c'.dataSize == 8162 || c'.dataSize >= c.dataSize + 725 * n)
    decreases |reported|
  {
    if reported != [] {
      AckAdjusts(c, reported[0]);
      FirstAck(c, reported);
      assert forall i :: 0 <= i < |reported[1..]| ==> reported[1..][i] == reported[i + 1];
      AcksRaise(c.OnAck(reported[0]), reported[1..]);
    }
  }

  /** So 28 of them reach the largest sizes, from wherever they start. */
  lemma AcksReachTheTop(c: SendControl, reported: seq<nat>)
    requires c.Valid() && c.corruptedPackets + c.lostPackets <= c.allowedLost && |reported| >= 28
    requires forall i :: 0 <= i < |reported| ==> reported[i] >= 16 * 8162
    ensures var c' := SendControlRun(c, Acks(reported)); c'.windowSize == 512 && c'.dataSize == 8162
  {
    AcksRaise(c, reported);
  }

  /** Acks that report a full buffer lower the window step by step, with or without losses. */
  lemma {:induction false} FullBufferLowers(c: SendControl, reported: seq<nat>)
    requires c.Valid() && forall i :: 0 <= i < |reported| ==> reported[i] == 0
    ensures var c' := SendControlRun(c, Acks(reported)); var n := |reported|;
      c'.windowSize == if c.windowSize >= 64 + 16 * n then c.windowSize - 16 * n else 64
    decreases |reported|
  {
    if reported != [] {
      AckAdjusts(c, reported[0]);
      FirstAck(c, reported);
      assert forall i :: 0 <= i < |reported[1..]| ==> reported[1..][i] == reported[i + 1];
      FullBufferLowers(c.OnAck(reported[0]), reported[1..]);
    }
  }

  lemma FullBufferReachesTheBottom(c: SendControl, reported: seq<nat>)
    requires c.Valid() && |reported| >= 28 && forall i :: 0 <= i < |reported| ==> reported[i] == 0
    ensures SendControlRun(c, Acks(reported)).windowSize == 64
  {
    FullBufferLowers(c, reported);
  }

  /** The better of two connections never tolerates more lost packets, at whichever end it is better; with a
      wireless end five are tolerated. */
  lemma BetterTolerateLess(a: nat, b: nat, local: nat, current: nat)
    requires a <= b <= 0xff2f_ffff
    ensures AllowedLost(a, local, current) >= AllowedLost(b, local, current) >= 1
    ensures AllowedLost(local, a, current) == AllowedLost(a, local, current) <= 5
    ensures AllowedLost(a, 0x0fff_ffff, current) == 5
  {
  }

  // ---- The receive window ----

  datatype ReceiveEvent = Arrival | AckMade

  function ReceiveControlRun(c: ReceiveControl, events: seq<ReceiveEvent>, k: nat): ReceiveControl
    requires k <= |events|
  {
    if k == 0 then c
    else
      var before := ReceiveControlRun(c, events, k - 1);
      if events[k - 1] == Arrival then before.OnDataPacketReceived() else before.OnGenerateAck()
  }

  function Arrivals(events: seq<ReceiveEvent>, k: nat): nat
    requires k <= |events|
  {
    if k == 0 then 0 else Arrivals(events, k - 1) + if events[k - 1] == Arrival then 1 else 0
  }

  lemma {:induction false} ArrivalsCount(events: seq<ReceiveEvent>, k: nat)
    requires k <= |events|
    ensures var c := ReceiveControlRun(INITIAL_RECEIVE_CONTROL, events, k);
      c.arrivals == if Arrivals(events, k) <= 17 then Arrivals(events, k) else 17
  {
    if k > 0 {
      ArrivalsCount(events, k - 1);
    }
  }

  /** Whether one of the first k events is an ack that is made after nine packets have arrived. */
  ghost predicate AckedAfterNine(events: seq<ReceiveEvent>, k: nat)
    requires k <= |events|
  {
    exists i :: 0 <= i < k && events[i] == AckMade && Arrivals(events, i) >= 9
  }

  lemma AckedAfterNineNext(events: seq<ReceiveEvent>, k: nat)
    requires k < |events|
    ensures AckedAfterNine(events, k + 1) <==> AckedAfterNine(events, k) || (events[k] == AckMade && Arrivals(events, k) >= 9)
  {
  }

  /** The receive window has 64 slots until the first ack that is made after nine packets have arrived, and
      512 from then on. */
  lemma {:induction false} WindowOpensOnce(events: seq<ReceiveEvent>, k: nat)
    requires k <= |events|
    ensures ReceiveControlRun(INITIAL_RECEIVE_CONTROL, events, k).windowSize == if AckedAfterNine(events, k) then 512 else 64
  {
    if k > 0 {
      WindowOpensOnce(events, k - 1);
      ArrivalsCount(events, k - 1);
      AckedAfterNineNext(events, k - 1);
    }
  }
}
