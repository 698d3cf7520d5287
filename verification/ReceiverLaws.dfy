/** What the receiver's acks and timers mean. */
module ReceiverLaws {
  import opened SequenceNumbers
  import opened SlidingWindows
  import opened Packets
  import opened CongestionControls
  import opened AckRanges
  import opened TickTimers
  import opened ReceiverSpec
  import ReceivingEnds

  // ---- The reported buffer size ----

  /** The i-th number behind the end of a window. */
  function Upcoming(w: Window<Unread>, i: nat): SeqNum { Wire(w.begin + (|w.items| + i)) }

  /** The window after the first n upcoming packets have arrived, one after the other. */
  function AfterArrivals(w: Window<Unread>, n: nat): Window<Unread> {
    if n == 0 then w else Reserve(AfterArrivals(w, n - 1), Upcoming(w, n - 1))
  }

  /** Whether the i-th upcoming packet finds a slot when it arrives after those before it. */
  predicate FindsSlot(w: Window<Unread>, i: nat) {
    AfterArrivals(w, i + 1).Contains(Upcoming(w, i))
  }

  /** `reported` is 8162 bytes for each of the upcoming packets that would find a slot, which are the first
      ones, as long as nothing is read. */
  ghost predicate ReportsRoom(w: Window<Unread>, reported: nat) {
    exists room: nat :: reported == 8162 * room && RoomIs(w, room)
  }

  ghost predicate RoomIs(w: Window<Unread>, room: nat) {
    && (forall i :: 0 <= i < room ==> FindsSlot(w, i))
    && (forall i :: room <= i && |w.items| + i < MODULUS ==> !FindsSlot(w, i))
  }

  lemma NotSoonAgain(w: Window<Unread>)
    requires w.Valid() && w.items != []
    ensures !w.IsComingSoon(w.NumberAt(|w.items| - 1))
  {
    OffsetBackwards(w.begin + |w.items|, w.begin + (|w.items| - 1));
  }

  /** An arrival of the very next number takes one more slot if there is one. */
  lemma ReserveNext(w: Window<Unread>)
    requires w.Valid()
    ensures Reserve(w, w.End()) == if w.IsFull() then w else w.Append(RESERVED)
  {
    OffsetUnique(w.End(), 0);
    if !w.IsFull() {
      var w' := w.Append(RESERVED);
      NotSoonAgain(w');
      assert w'.NumberAt(|w'.items| - 1) == w.End();
      assert Reserve(w', w.End()) == w';
    }
  }

  /** Arrivals take slots until the window is full. */
  lemma {:induction false} ArrivalsTakeSlots(w: Window<Unread>, n: nat)
    requires w.Valid()
    ensures var w' := AfterArrivals(w, n);
      && w'.Valid() && w'.begin == w.begin && w'.maximumSize == w.maximumSize
      && |w'.items| == if |w.items| + n <= w.maximumSize then |w.items| + n
                       else if |w.items| <= w.maximumSize then w.maximumSize else |w.items|
  {
    if n > 0 {
      ArrivalsTakeSlots(w, n - 1);
      var w1 := AfterArrivals(w, n - 1);
      if !w1.IsFull() {
        assert Upcoming(w, n - 1) == w1.End();
        ReserveNext(w1);
      }
    }
  }

  lemma SlotsAreFound(w: Window<Unread>, i: nat)
    requires w.Valid() && |w.items| + i < MODULUS
    ensures FindsSlot(w, i) <==> |w.items| + i < w.maximumSize
  {
    ArrivalsTakeSlots(w, i + 1);
    OffsetUnique(w.begin, |w.items| + i);
  }

  /** An ack reports 8162 bytes for exactly the upcoming packets that would find a slot. */
  lemma AckReportsRoom(r: ReceiverState, now: int, statistics: LinkStatistics)
    requires r.unread.Valid()
    ensures var o := AddAckToWindow(r, now, statistics);
      o.ack.Some? ==> o.ack.value.info.Some? && ReportsRoom(o.state.unread, o.ack.value.info.value.availableBufferSize)
  {
    var w := r.unread;
    var room: nat := if w.IsFull() then 0 else w.maximumSize - |w.items|;
    forall i: nat | |w.items| + i < MODULUS ensures FindsSlot(w, i) <==> i < room {
      SlotsAreFound(w, i);
    }
    assert RoomIs(w, room);
  }

  /** It reports nothing exactly when the next new packet would find no slot. */
  lemma NothingReported(w: Window<Unread>, reported: nat)
    requires w.Valid() && ReportsRoom(w, reported)
    ensures reported == 0 <==> !FindsSlot(w, 0)
  {
  }

  /** The number of bytes reported is determined by the window. */
  lemma ReportIsUnique(w: Window<Unread>, a: nat, b: nat)
    requires w.Valid() && ReportsRoom(w, a) && ReportsRoom(w, b)
    ensures a == b
  {
    var m: nat :| a == 8162 * m && RoomIs(w, m);
    var n: nat :| b == 8162 * n && RoomIs(w, n);
    RoomIsFree(w, m);
    RoomIsFree(w, n);
  }

  lemma RoomIsFree(w: Window<Unread>, room: nat)
    requires w.Valid() && RoomIs(w, room)
    ensures room == if |w.items| < w.maximumSize then w.maximumSize - |w.items| else 0
  {
    var free: nat := if |w.items| < w.maximumSize then w.maximumSize - |w.items| else 0;
    SlotsAreFound(w, free);
    if free > 0 {
      SlotsAreFound(w, free - 1);
    }
  }

  // ---- Where data goes ----

  /** A new packet less than 512 ahead of the window reserves a slot for each number up to its own and takes the
      last of them. When the slots run out before that, all of them are reserved, and it is dropped. */
  lemma NewDataTakesSlot(r: ReceiverState, packet: DataPacket, k: nat)
    requires r.Valid() && k < 512 && packet.sequenceNumber == Upcoming(r.unread, k)
    ensures var r' := Store(r, packet); var items, items' := r.unread.items, r'.unread.items;
      && r'.unread.begin == r.unread.begin && r'.acks == r.acks && |items| <= |items'| && items'[..|items|] == items
      && r'.unread.maximumSize == r.control.windowSize
      && if |items| + k < r.control.windowSize then
           && |items'| == |items| + k + 1 && items'[|items| + k] == Unread(packet, false, 0)
           && (forall i :: |items| <= i < |items| + k ==> items'[i] == RESERVED)
           && r'.received == r.received + {packet.sequenceNumber}
         else
           && |items'| == (if |items| <= r.control.windowSize then r.control.windowSize else |items|)
           && (forall i :: |items| <= i < |items'| ==> items'[i] == RESERVED)
           && r'.received == r.received
  {
    var w := r.unread.WithMaximumSize(r.control.windowSize);
    ReceivingEnds.ReserveReaches(w, w.begin, |w.items|, |w.items| + k);
    OffsetUnique(w.begin, |w.items| + k);
  }

  // ---- When acks are made ----

  /** An arrival is answered at once exactly when the number of unconfirmed packets is then a multiple of 16
      other than 0. */
  lemma AnsweredAtOnce(r: ReceiverState, packet: DataPacket, now: int, statistics: LinkStatistics)
    requires r.Valid()
    ensures var o := ReceiverSpec.HandleData(r, packet, now, statistics);
      o.ack.Some? <==> |o.state.received| % 16 == 0 && o.state.received != {}
  {
    RunsAreExact(Store(r, packet).received);
  }

  /** A tick makes an ack exactly when something is unconfirmed, and it lists just that, for the peer that the
      statistics are about. */
  lemma TickAnswers(r: ReceiverState, now: int, statistics: LinkStatistics)
    requires r.unread.Valid()
    ensures var o := AddAckToWindow(r, now, statistics);
      && (o.ack.Some? <==> r.received != {})
      && (o.ack.Some? ==>
            && IsRunLength(o.ack.value.ranges, r.received) && o.ack.value.destination == statistics.destination
            && o.ack.value.info.value.roundTripTime == statistics.roundTripTime
            && o.ack.value.info.value.roundTripTimeVariance == statistics.roundTripTimeVariance
            && o.ack.value.info.value.packetsReceivingRate == statistics.packetsReceivingRate
            && o.ack.value.info.value.estimatedLinkCapacity == statistics.estimatedLinkCapacity)
  {
    RunsAreExact(r.received);
  }

  // ---- Timers ----

  /** The deadline of the acks is 1000 after the newest one was made: an ack that is made now sets it, and as
      long as no other is made it stays, until the ack window is empty. */
  lemma DeadlineFollowsNewest(r: ReceiverState, now: int, statistics: LinkStatistics)
    requires r.unread.Valid()
    ensures var o := AddAckToWindow(r, now, statistics);
      AckDeadline(o.state.acks) == if o.ack.Some? then Some(now + 1000) else AckDeadline(r.acks)
  {
  }

  lemma DeadlineSurvivesConfirmation(r: ReceiverState, n: SeqNum)
    ensures var acks := ReceiverSpec.HandleAckOfAck(r, n).acks;
      AckDeadline(acks) == if acks.items == [] then None else AckDeadline(r.acks)
  {
  }

  /** After data a timer that is set stays as it is, and one that is not fires 100 later. */
  lemma DataArmsTimer(expiry: Option<int>, now: int)
    ensures Rearmed(expiry, now) == if expiry == None then Some(now + 100) else expiry
  {
  }
}
