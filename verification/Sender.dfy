/** A timer whose expiry only moves earlier between resets. */
module TickTimers {
  import opened Packets

  function Earlier(expiry: Option<int>, time: int): Option<int> {
    if expiry == None || time < expiry.value then Some(time) else expiry
  }

  /** The sooner of two expiries. */
  function Soonest(a: Option<int>, b: Option<int>): Option<int> {
    if b == None then a else Earlier(a, b.value)
  }

  /** An expiry at infinity counts as expired. */
  predicate IsExpired(expiry: Option<int>, now: int) {
    expiry == None || now >= expiry.value
  }

  class TickTimer {
    /** None stands for an expiry at positive infinity. */
    var expiry: Option<int>

    constructor ()
      ensures expiry == None
    {
      expiry := None;
    }

    method Reset()
      modifies this
      ensures expiry == None
    {
      expiry := None;
    }

    predicate Expired(now: int)
      reads this
    {
      IsExpired(expiry, now)
    }

    method TickAt(time: int)
      modifies this
      ensures expiry == Earlier(old(expiry), time)
    {
      if expiry == None || time < expiry.value {
        expiry := Some(time);
      }
    }
  }
}

/** What a sender does, as functions on values: the reference that the Sender class is proved against. */
module SenderSpec {
  import opened SequenceNumbers
  import opened SlidingWindows
  import opened Packets
  import opened CongestionControls

  const SEND_TIMEOUT: int := 300
  const SEND_DELAY: int := 10

  datatype Unacked = Unacked(packet: DataPacket, lost: bool, ackd: bool, lastSend: Option<int>)

  /** send_timeout_: not_a_date_time, positive infinity or a time. Not_a_date_time compares as
      reached, since ptime's <= is the negation of > and every > with it is false. */
  datatype Deadline = Unset | Never | At(time: int) {
    predicate Reached(now: int) { Unset? || (At? && time <= now) }
  }

  function DeadlineAfter(lastSend: Option<int>): Deadline {
    if lastSend == None then Unset else At(lastSend.value + SEND_TIMEOUT)
  }

  datatype SenderState = SenderState(
    window: Window<Unacked>, timeout: Deadline, currentMessage: nat, control: SendControl)
  {
    predicate Valid() { window.Valid() && control.Valid() }
  }

  /** The outcome of an operation: the new state and the data packets handed to the network. */
  datatype Sent = Sent(state: SenderState, packets: seq<DataPacket>) {
    /** How long after `now` DoSend asks for the next tick. */
    function NextTick(now: int): int { now + if packets == [] then SEND_TIMEOUT else SEND_DELAY }
  }

  /** The position, at or after `from`, of the lost item that is sent when the network refuses
      `failures` send calls before it accepts one; |items| when no call is accepted. */
  function SendPosition(items: seq<Unacked>, from: nat, failures: nat): (k: nat)
    requires from <= |items|
    ensures from <= k <= |items|
    ensures k < |items| ==> items[k].lost
    ensures failures == 0 ==> forall j :: from <= j < k ==> !items[j].lost
    decreases |items| - from
  {
    if from == |items| then from
    else if items[from].lost && failures == 0 then from
    else SendPosition(items, from + 1, if items[from].lost then failures - 1 else failures)
  }

  function Transmit(items: seq<Unacked>, k: nat, now: int): (r: seq<Unacked>)
    ensures |r| == |items|
  {
    if k < |items| then items[k := items[k].(lost := false, lastSend := Some(now))] else items
  }

  function DoSend(s: SenderState, now: int, failures: nat): Sent {
    var items := s.window.items;
    var k := SendPosition(items, 0, failures);
    var items' := Transmit(items, k, now);
    var timeout := if items' == [] then s.timeout else DeadlineAfter(items'[0].lastSend);
    Sent(s.(window := s.window.(items := items'), timeout := timeout),
         if k < |items| then [items[k].packet] else [])
  }

  /** The packet that carries `length` bytes of a message from position ptr on. */
  function Segment(n: SeqNum, current: nat, message: nat, destination: Uint32, data: seq<Byte>, ptr: nat, length: nat): DataPacket
    requires ptr + length <= |data|
  {
    DataPacket(n, current == message, ptr + length == |data|, true, message, 0, destination, data[ptr..ptr + length])
  }

  datatype Filled = Filled(window: Window<Unacked>, currentMessage: nat, accepted: nat)

  /** Cuts data from position ptr on into segments until the data or the room in the window runs out. */
  function Fill(w: Window<Unacked>, size: nat, current: nat, message: nat, destination: Uint32, data: seq<Byte>, ptr: nat): (f: Filled)
    requires size > 0 && ptr <= |data|
    ensures ptr <= f.accepted <= |data| && |w.items| <= |f.window.items|
    decreases |data| - ptr
  {
    if w.IsFull() || ptr == |data| then Filled(w, current, ptr)
    else
      var length := Min(size, |data| - ptr);
      var packet := Segment(w.End(), current, message, destination, data, ptr, length);
      Fill(w.Append(Unacked(packet, true, false, None)), size, message, message, destination, data, ptr + length)
  }

  /** The window with the size that congestion control allows at the moment. */
  function Resized(s: SenderState): Window<Unacked> {
    s.window.WithMaximumSize(
      if |s.window.items| == 0 && s.control.windowSize == 0 then DEFAULT_WINDOW_SIZE else s.control.windowSize)
  }

  function FillFrom(s: SenderState, data: seq<Byte>, message: nat, destination: Uint32): Filled
    requires s.Valid()
  {
    Fill(Resized(s), s.control.dataSize, s.currentMessage, message, destination, data, 0)
  }

  /** AddData before its final DoSend. */
  function Enqueue(s: SenderState, data: seq<Byte>, message: nat, destination: Uint32): SenderState
    requires s.Valid()
  {
    var f := FillFrom(s, data, message, destination);
    s.(window := f.window, currentMessage := f.currentMessage)
  }

  function AddData(s: SenderState, data: seq<Byte>, message: nat, destination: Uint32, now: int, failures: nat): Sent
    requires s.Valid()
  {
    DoSend(Enqueue(s, data, message, destination), now, failures)
  }

  /** How many bytes AddData accepts. */
  function Accepted(s: SenderState, data: seq<Byte>, message: nat, destination: Uint32): nat
    requires s.Valid()
  {
    FillFrom(s, data, message, destination).accepted
  }

  function MarkAcked(w: Window<Unacked>, ranges: seq<Range>): Window<Unacked> {
    w.(items := seq(|w.items|, i requires 0 <= i < |w.items| =>
      w.items[i].(ackd := w.items[i].ackd || Covers(ranges, w.NumberAt(i)))))
  }

  /** The first position at or after `from` whose item is not acknowledged. */
  function TrimPosition(items: seq<Unacked>, from: nat): (k: nat)
    requires from <= |items|
    ensures from <= k <= |items|
    ensures forall i :: from <= i < k ==> items[i].ackd
    ensures k < |items| ==> !items[k].ackd
    decreases |items| - from
  {
    if from == |items| || !items[from].ackd then from else TrimPosition(items, from + 1)
  }

  /** The messages whose last packet is among the first k items, in the order of the items. */
  function CompletedMessages(items: seq<Unacked>, k: nat): seq<nat>
    requires k <= |items|
  {
    if k == 0 then []
    else
      var last := items[k - 1].packet;
      CompletedMessages(items, k - 1) + if last.lastInMessage then [last.messageNumber] else []
  }

  /** HandleAck before its final DoSend. */
  function Acknowledge(s: SenderState, packet: AckPacket): (r: (SenderState, seq<nat>))
    requires s.Valid()
    ensures r.0.Valid()
  {
    var control := if packet.info.Some? then s.control.OnAck(packet.info.value.availableBufferSize) else s.control;
    var w := MarkAcked(s.window, packet.ranges);
    var k := TrimPosition(w.items, 0);
    (s.(window := w.RemoveFront(k), control := control), CompletedMessages(w.items, k))
  }

  function HandleAck(s: SenderState, packet: AckPacket, now: int, failures: nat): Sent
    requires s.Valid()
  {
    var s' := Acknowledge(s, packet).0;
    if |s'.window.items| < |s.window.items| then DoSend(s', now, failures) else Sent(s', [])
  }

  /** How many of the first k items are listed by a negative ack. */
  function ListedCount(w: Window<Unacked>, packet: NegativeAckPacket, k: nat): nat
    requires k <= |w.items|
  {
    if k == 0 then 0 else ListedCount(w, packet, k - 1) + if packet.Lists(w.NumberAt(k - 1)) then 1 else 0
  }

  function MarkListed(s: SenderState, packet: NegativeAckPacket): SenderState {
    var w := s.window;
    s.(window := w.(items := seq(|w.items|, i requires 0 <= i < |w.items| =>
         w.items[i].(lost := w.items[i].lost || packet.Lists(w.NumberAt(i))))),
       control := s.control.(corruptedPackets := s.control.corruptedPackets + ListedCount(w, packet, |w.items|)))
  }

  function HandleNegativeAck(s: SenderState, packet: NegativeAckPacket, now: int, failures: nat): Sent {
    DoSend(MarkListed(s, packet), now, failures)
  }

  predicate Expired(item: Unacked, now: int) {
    !item.ackd && item.lastSend != None && item.lastSend.value + SEND_TIMEOUT < now
  }

  function ExpiredCount(items: seq<Unacked>, now: int, k: nat): nat
    requires k <= |items|
  {
    if k == 0 then 0 else ExpiredCount(items, now, k - 1) + if Expired(items[k - 1], now) then 1 else 0
  }

  function MarkExpired(s: SenderState, now: int): SenderState {
    var items := s.window.items;
    s.(window := s.window.(items := seq(|items|, i requires 0 <= i < |items| =>
         items[i].(lost := items[i].lost || Expired(items[i], now)))),
       control := s.control.(lostPackets := s.control.lostPackets + ExpiredCount(items, now, |items|)))
  }

  /** HandleTick before its final DoSend. */
  function CheckTimeout(s: SenderState, now: int): SenderState {
    if s.timeout.Reached(now) then MarkExpired(s.(timeout := Never), now) else s
  }

  function HandleTick(s: SenderState, now: int, failures: nat): Sent {
    DoSend(CheckTimeout(s, now), now, failures)
  }
}

/** The sender: it cuts data into packets, sends them one at a time and trims those that are acknowledged. */
module Senders {
  import opened SequenceNumbers
  import opened SlidingWindows
  import opened Packets
  import opened CongestionControls
  import opened TickTimers
  import opened SenderSpec

  class Sender {
    const unacked: SlidingWindow<Unacked>
    const control: CongestionControl
    const timer: TickTimer
    var timeout: Deadline
    var currentMessage: nat

    ghost predicate Valid()
      reads this, unacked, control
    {
      unacked.Valid() && control.Valid()
    }

    ghost function State(): SenderState
      reads this, unacked, control
    {
      SenderState(unacked.View(), timeout, currentMessage, control.SendView())
    }

    constructor (control: CongestionControl, timer: TickTimer, initial: SeqNum)
      requires control.Valid()
      ensures Valid() && this.control == control && this.timer == timer && fresh(unacked)
      ensures State() == SenderState(Window(initial, [], DEFAULT_WINDOW_SIZE), Unset, 0, control.SendView())
    {
      this.unacked := new SlidingWindow(initial);
      this.control := control;
      this.timer := timer;
      this.timeout := Unset;
      this.currentMessage := 0;
    }

    method AddData(data: seq<Byte>, message: nat, destination: Uint32, now: int, failures: nat)
      returns (accepted: nat, packets: seq<DataPacket>)
      requires Valid()
      modifies this, unacked, timer
      ensures Valid()
      ensures Sent(State(), packets) == SenderSpec.AddData(old(State()), data, message, destination, now, failures)
      ensures accepted == Accepted(old(State()), data, message, destination)
      ensures timer.expiry == Earlier(old(timer.expiry), Sent(State(), packets).NextTick(now))
    {
      unacked.SetMaximumSize(
        if |unacked.items| == 0 && control.sendWindowSize == 0 then DEFAULT_WINDOW_SIZE else control.sendWindowSize);
      ghost var goal := FillFrom(old(State()), data, message, destination);
      var ptr := 0;
      while !unacked.IsFull() && ptr < |data|
        modifies unacked, this`currentMessage
        invariant 0 <= ptr <= |data| && Valid()
        invariant Fill(unacked.View(), control.sendDataSize, currentMessage, message, destination, data, ptr) == goal
        decreases |data| - ptr
      {
        var length := Min(control.sendDataSize, |data| - ptr);
        var packet := Segment(unacked.end, currentMessage, message, destination, data, ptr, length);
        var n := unacked.Append(Unacked(packet, true, false, None));
        currentMessage := message;
        ptr := ptr + length;
      }
      packets := DoSend(now, failures);
      accepted := ptr;
    }

    method DoSend(now: int, failures: nat) returns (packets: seq<DataPacket>)
      requires Valid()
      modifies this`timeout, unacked`items, timer
      ensures Valid()
      ensures Sent(State(), packets) == SenderSpec.DoSend(old(State()), now, failures)
      ensures timer.expiry == Earlier(old(timer.expiry), Sent(State(), packets).NextTick(now))
    {
      packets := [];
      ghost var items := unacked.items;
      ghost var target := SendPosition(items, 0, failures);
      var remaining := failures;
      var n := unacked.begin;
      ghost var k := 0;
      while n != unacked.end && |packets| < 1
        modifies unacked`items
        invariant 0 <= k <= |items| == |unacked.items| && Valid() && n == unacked.View().NumberAt(k)
        invariant packets == [] ==> unacked.items == items && target == SendPosition(items, k, remaining)
        invariant packets != [] ==>
          target < |items| && unacked.items == Transmit(items, target, now) && packets == [items[target].packet]
        decreases |items| - k
      {
        unacked.Cursor(n, k);
        var p := unacked.Get(n);
        assert p == items[k];
        if p.lost {
          if remaining == 0 {
            packets := packets + [p.packet];
            unacked.Put(n, p.(lost := false, lastSend := Some(now)));
          } else {
            remaining := remaining - 1;
          }
        }
        n := Next(n);
        k := k + 1;
      }
      unacked.Cursor(n, k);
      if |packets| > 0 {
        timer.TickAt(now + SEND_DELAY);
      } else {
        timer.TickAt(now + SEND_TIMEOUT);
      }
      if !unacked.IsEmpty() {
        timeout := DeadlineAfter(unacked.items[0].lastSend);
      }
    }

    method HandleAck(packet: AckPacket, now: int, failures: nat)
      returns (response: Uint32, completed: seq<nat>, packets: seq<DataPacket>)
      requires Valid()
      requires forall r :: r in packet.ranges ==> r.last < 0xffff_ffff
      modifies this`timeout, unacked, timer,
        control`sendWindowSize, control`sendDataSize, control`lostPackets, control`corruptedPackets
      ensures Valid()
      ensures response == packet.ackSequenceNumber
      ensures Sent(State(), packets) == SenderSpec.HandleAck(old(State()), packet, now, failures)
      ensures completed == Acknowledge(old(State()), packet).1
      ensures timer.expiry ==
        if |unacked.items| < old(|unacked.items|) then Earlier(old(timer.expiry), Sent(State(), packets).NextTick(now))
        else old(timer.expiry)
    {
      packets := [];
      if packet.info.Some? {
        control.OnAck(packet.info.value.availableBufferSize);
      }
      response := packet.ackSequenceNumber;
      MarkAckd(packet.ranges);
      var newRoom;
      completed, newRoom := TrimWindow();
      if newRoom {
        packets := DoSend(now, failures);
      }
    }

    /** The trimming loop of HandleAck. */
    method TrimWindow() returns (completed: seq<nat>, newRoom: bool)
      requires Valid()
      modifies unacked
      ensures Valid()
      ensures var items := old(unacked.items); var k := TrimPosition(items, 0);
        && unacked.View() == old(unacked.View()).RemoveFront(k)
        && completed == CompletedMessages(items, k)
        && (newRoom <==> k > 0)
    {
      ghost var w := unacked.View();
      ghost var k := 0;
      completed := [];
      newRoom := false;
      while !unacked.IsEmpty() && unacked.items[0].ackd
        invariant 0 <= k <= |w.items| && Valid()
        invariant unacked.View() == w.RemoveFront(k)
        invariant TrimPosition(w.items, 0) == TrimPosition(w.items, k)
        invariant completed == CompletedMessages(w.items, k)
        invariant newRoom <==> k > 0
        decreases |w.items| - k
      {
        WireAdd(w.begin + k, 1);
        if unacked.items[0].packet.lastInMessage {
          completed := completed + [unacked.items[0].packet.messageNumber];
        }
        newRoom := true;
        unacked.Remove();
        k := k + 1;
      }
    }

    /** The marking loop of HandleAck: every number of every range is looked up in the window, which has none
        above MAX_SEQUENCE_NUMBER. A 32-bit counter never passes a range that ends at 0xffff_ffff. */
    method MarkAckd(ranges: seq<Range>)
      requires Valid()
      requires forall r :: r in ranges ==> r.last < 0xffff_ffff
      modifies unacked`items
      ensures Valid() && unacked.View() == MarkAcked(old(unacked.View()), ranges)
    {
      ghost var w := unacked.View();
      var j := 0;
      while j < |ranges|
        invariant 0 <= j <= |ranges| && Valid() && |unacked.items| == |w.items|
        invariant forall i :: 0 <= i < |w.items| ==>
          unacked.items[i] == w.items[i].(ackd := w.items[i].ackd || Covers(ranges[..j], w.NumberAt(i)))
      {
        var n := ranges[j].first;
        while n <= ranges[j].last
          invariant ranges[j].first <= n && Valid() && |unacked.items| == |w.items|
          invariant forall i :: 0 <= i < |w.items| ==>
            unacked.items[i] == w.items[i].(ackd := w.items[i].ackd || Covers(ranges[..j], w.NumberAt(i)) ||
              (ranges[j].first <= w.NumberAt(i) <= ranges[j].last && w.NumberAt(i) < n))
          decreases ranges[j].last + 1 - n
        {
          assert ranges[j] in ranges;
          if n <= MAX_SEQUENCE_NUMBER {
            ContainsIsPosition(w, n);
            if unacked.Contains(n) {
              unacked.Put(n, unacked.Get(n).(ackd := true));
            }
          }
          n := n + 1;
        }
        forall m: nat ensures Covers(ranges[..j + 1], m) <==> Covers(ranges[..j], m) || ranges[j].first <= m <= ranges[j].last {
          CoversAppend(ranges, j, m);
        }
        j := j + 1;
      }
      assert ranges[..|ranges|] == ranges;
    }

    method HandleNegativeAck(packet: NegativeAckPacket, now: int, failures: nat) returns (packets: seq<DataPacket>)
      requires Valid()
      modifies this`timeout, unacked`items, timer, control`corruptedPackets
      ensures Valid()
      ensures Sent(State(), packets) == SenderSpec.HandleNegativeAck(old(State()), packet, now, failures)
      ensures timer.expiry == Earlier(old(timer.expiry), Sent(State(), packets).NextTick(now))
    {
      MarkLost(packet);
      packets := DoSend(now, failures);
    }

    /** The marking loop of HandleNegativeAck. */
    method MarkLost(packet: NegativeAckPacket)
      requires Valid()
      modifies unacked`items, control`corruptedPackets
      ensures Valid() && State() == MarkListed(old(State()), packet)
    {
      ghost var w := unacked.View();
      var n := unacked.begin;
      ghost var k := 0;
      while n != unacked.end
        invariant 0 <= k <= |w.items| == |unacked.items| && Valid() && n == unacked.View().NumberAt(k)
        invariant forall i :: 0 <= i < k ==>
          unacked.items[i] == w.items[i].(lost := w.items[i].lost || packet.Lists(w.NumberAt(i)))
        invariant forall i :: k <= i < |w.items| ==> unacked.items[i] == w.items[i]
        invariant control.corruptedPackets == old(control.corruptedPackets) + ListedCount(w, packet, k)
        decreases |w.items| - k
      {
        unacked.Cursor(n, k);
        var p := unacked.Get(n);
        assert p == w.items[k] && n == w.NumberAt(k);
        if packet.Lists(n) {
          control.OnNegativeAck();
          unacked.Put(n, p.(lost := true));
        }
        n := Next(n);
        k := k + 1;
      }
      unacked.Cursor(n, k);
    }

    method HandleTick(now: int, failures: nat) returns (packets: seq<DataPacket>)
      requires Valid()
      modifies this`timeout, unacked`items, timer, control`lostPackets
      ensures Valid()
      ensures Sent(State(), packets) == SenderSpec.HandleTick(old(State()), now, failures)
      ensures timer.expiry == Earlier(old(timer.expiry), Sent(State(), packets).NextTick(now))
    {
      if timeout.Reached(now) {
        timeout := Never;
        MarkExpiredPackets(now);
      }
      packets := DoSend(now, failures);
    }

    method MarkExpiredPackets(now: int)
      requires Valid()
      modifies unacked`items, control`lostPackets
      ensures Valid() && State() == MarkExpired(old(State()), now)
    {
      ghost var w := unacked.View();
      var n := unacked.begin;
      ghost var k := 0;
      while n != unacked.end
        invariant 0 <= k <= |w.items| == |unacked.items| && Valid() && n == unacked.View().NumberAt(k)
        invariant forall i :: 0 <= i < k ==>
          unacked.items[i] == w.items[i].(lost := w.items[i].lost || Expired(w.items[i], now))
        invariant forall i :: k <= i < |w.items| ==> unacked.items[i] == w.items[i]
        invariant control.lostPackets == old(control.lostPackets) + ExpiredCount(w.items, now, k)
        decreases |w.items| - k
      {
        unacked.Cursor(n, k);
        var p := unacked.Get(n);
        if !p.ackd && p.lastSend != None && p.lastSend.value + SEND_TIMEOUT < now {
          control.OnSendTimeout();
          unacked.Put(n, p.(lost := true));
        }
        n := Next(n);
        k := k + 1;
      }
      unacked.Cursor(n, k);
    }
  }

  lemma CoversAppend(ranges: seq<Range>, j: nat, m: nat)
    requires j < |ranges|
    ensures Covers(ranges[..j + 1], m) <==> Covers(ranges[..j], m) || ranges[j].first <= m <= ranges[j].last
  {
    var a, b := ranges[..j], ranges[..j + 1];
    assert forall i :: 0 <= i < j ==> a[i] == b[i];
    assert b[j] == ranges[j];
    if Covers(a, m) {
      var i :| 0 <= i < |a| && a[i].first <= m <= a[i].last;
      assert b[i].first <= m <= b[i].last;
    }
  }
}
