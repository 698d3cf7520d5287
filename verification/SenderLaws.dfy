/** What the sender does to its packets, position by position. */
module SenderLaws {
  import opened SequenceNumbers
  import opened SlidingWindows
  import opened Packets
  import opened CongestionControls
  import opened ControlLaws
  import opened TickTimers
  import opened SenderSpec
  import opened PacketNumbers

  /** The positions at which a packet is marked for sending. */
  function LostAt(items: seq<Unacked>): set<nat> { set i | 0 <= i < |items| && items[i].lost }

  function Below(s: set<nat>, k: nat): set<nat> { set i | i in s && i < k }

  /** Of the packets at these positions, the one with exactly `failures` of them before it is sent, stamped and
      no longer lost, and the next tick is due after 10; when there is none, nothing is sent, and it is due
      after 300. All the others are lost exactly when their positions are among these, and nothing else about
      them changes. */
  ghost predicate SendsOneOf(lost: set<nat>, items: seq<Unacked>, r: Sent, now: int, failures: nat) {
    var after := r.state.window.items;
    && |after| == |items|
    && if |lost| <= failures then
         && r.packets == [] && r.NextTick(now) == now + 300
         && forall i :: 0 <= i < |items| ==> after[i] == items[i].(lost := i in lost)
       else exists k :: SendsAt(k, lost, items, r, now, failures)
  }

  ghost predicate SendsAt(k: nat, lost: set<nat>, items: seq<Unacked>, r: Sent, now: int, failures: nat) {
    var after := r.state.window.items;
    && k in lost && k < |items| == |after| && |Below(lost, k)| == failures
    && r.packets == [items[k].packet] && r.NextTick(now) == now + 10
    && after[k] == items[k].(lost := false, lastSend := Some(now))
    && forall i :: 0 <= i < |items| && i != k ==> after[i] == items[i].(lost := i in lost)
  }

  /** The send timeout is 300 after the front packet was last sent, and not set if that has not happened. */
  predicate TimesOutWithFront(s: SenderState) {
    var items := s.window.items;
    items != [] ==>
      if items[0].lastSend == None then s.timeout == Unset else s.timeout == At(items[0].lastSend.value + 300)
  }

  lemma BelowNext(s: set<nat>, k: nat)
    ensures |Below(s, k + 1)| == |Below(s, k)| + if k in s then 1 else 0
  {
    if k in s {
      assert Below(s, k + 1) == Below(s, k) + {k};
    } else {
      assert Below(s, k + 1) == Below(s, k);
    }
  }

  /** The search finds the lost item that has as many lost ones before it as sends are refused. */
  lemma {:induction false} PositionByCount(items: seq<Unacked>, from: nat, left: nat)
    requires from <= |items|
    ensures var k := SendPosition(items, from, left); var lost := LostAt(items);
      if k < |items| then k in lost && |Below(lost, k)| == |Below(lost, from)| + left
      else |lost| <= |Below(lost, from)| + left
    decreases |items| - from
  {
    var lost := LostAt(items);
    if from == |items| {
      assert Below(lost, from) == lost;
    } else {
      BelowNext(lost, from);
      if !(items[from].lost && left == 0) {
        PositionByCount(items, from + 1, if items[from].lost then left - 1 else left);
      }
    }
  }

  lemma {:induction false} BelowSize(s: set<nat>, t: set<nat>)
    requires s < t
    ensures |s| < |t|
  {
    var x :| x in t && x !in s;
    var t' := t - {x};
    assert s <= t';
    SubsetSize(s, t');
  }

  lemma {:induction false} SubsetSize(s: set<nat>, t: set<nat>)
    requires s <= t
    ensures |s| <= |t|
  {
    if s != {} {
      var x :| x in s;
      SubsetSize(s - {x}, t - {x});
    }
  }

  /** DoSend sends one of the lost packets, and sets the send timeout after its front. */
  lemma SendingSendsOne(s: SenderState, now: int, failures: nat)
    ensures SendsOneOf(LostAt(s.window.items), s.window.items, DoSend(s, now, failures), now, failures)
    ensures TimesOutWithFront(DoSend(s, now, failures).state)
  {
    var items := s.window.items;
    var lost := LostAt(items);
    var r := DoSend(s, now, failures);
    var k := SendPosition(items, 0, failures);
    PositionByCount(items, 0, failures);
    assert Below(lost, 0) == {};
    if k < |items| {
      assert k !in Below(lost, k);
      BelowSize(Below(lost, k), lost);
      assert SendsAt(k, lost, items, r, now, failures);
    }
  }

  /** The same after a set of positions has been marked as lost. */
  lemma SendingAfterMarking(s: SenderState, s1: SenderState, marked: set<nat>, now: int, failures: nat)
    requires |s1.window.items| == |s.window.items|
    requires forall i :: 0 <= i < |s.window.items| ==>
      s1.window.items[i] == s.window.items[i].(lost := s.window.items[i].lost || i in marked)
    requires forall i :: i in marked ==> i < |s.window.items|
    ensures SendsOneOf(LostAt(s.window.items) + marked, s.window.items, DoSend(s1, now, failures), now, failures)
  {
    var items, r := s.window.items, DoSend(s1, now, failures);
    var lost := LostAt(items) + marked;
    SendingSendsOne(s1, now, failures);
    assert LostAt(s1.window.items) == lost;
    if |lost| > failures {
      var k :| SendsAt(k, lost, s1.window.items, r, now, failures);
      assert SendsAt(k, lost, items, r, now, failures);
    }
  }

  // ---- Negative acks ----

  /** A negative ack that was built from these additions. */
  function Built(p: NegativeAckPacket, additions: seq<Addition>): NegativeAckPacket {
    p.(words := AllWords(additions, |additions|))
  }

  /** The positions of a window whose numbers were added. */
  ghost function AddedAt(w: Window<Unacked>, additions: seq<Addition>): set<nat> {
    set i | 0 <= i < |w.items| && Added(additions, w.NumberAt(i))
  }

  lemma BuiltLists(p: NegativeAckPacket, additions: seq<Addition>, n: SeqNum)
    ensures Built(p, additions).Lists(n) <==> Added(additions, n)
  {
    var q, r := Built(p, additions), Packet(AllWords(additions, |additions|));
    assert forall i :: 0 <= i < |q.words| ==> (q.Matches(i, n) <==> r.Matches(i, n));
    NegativeAckListsAdditions(additions, |additions|, n);
    assert additions[..|additions|] == additions;
  }

  lemma {:induction false} ListedCountIs(w: Window<Unacked>, p: NegativeAckPacket, additions: seq<Addition>, k: nat)
    requires k <= |w.items|
    ensures ListedCount(w, Built(p, additions), k) == |Below(AddedAt(w, additions), k)|
  {
    if k == 0 {
      assert Below(AddedAt(w, additions), 0) == {};
    } else {
      ListedCountIs(w, p, additions, k - 1);
      BuiltLists(p, additions, w.NumberAt(k - 1));
      BelowNext(AddedAt(w, additions), k - 1);
    }
  }

  /** A negative ack makes lost, besides what was lost before, exactly the packets whose numbers were added to
      it, and counts them as corrupted; one of all these is sent, the lowest one if no send is refused. */
  lemma NegativeAckMarksAdded(s: SenderState, p: NegativeAckPacket, additions: seq<Addition>, now: int, failures: nat)
    ensures var r := SenderSpec.HandleNegativeAck(s, Built(p, additions), now, failures);
      var added := AddedAt(s.window, additions);
      && SendsOneOf(LostAt(s.window.items) + added, s.window.items, r, now, failures)
      && r.state.control == s.control.(corruptedPackets := s.control.corruptedPackets + |added|)
      && r.state.window.begin == s.window.begin && r.state.currentMessage == s.currentMessage
  {
    var w, added, q := s.window, AddedAt(s.window, additions), Built(p, additions);
    forall i | 0 <= i < |w.items| ensures q.Lists(w.NumberAt(i)) <==> i in added {
      BuiltLists(p, additions, w.NumberAt(i));
    }
    SendingAfterMarking(s, MarkListed(s, q), added, now, failures);
    ListedCountIs(w, p, additions, |w.items|);
    assert Below(added, |w.items|) == added;
  }

  /** The lowest of the candidates is the one that is sent when no send is refused. */
  lemma LowestIsSent(lost: set<nat>, items: seq<Unacked>, r: Sent, now: int, k: nat)
    requires SendsAt(k, lost, items, r, now, 0)
    ensures forall i :: i in lost ==> k <= i
  {
    assert Below(lost, k) == {};
    forall i | i in lost ensures k <= i {
      assert i !in Below(lost, k);
    }
  }

  // ---- Acks ----

  /** Whether the packet at position i was acknowledged before or has its number in a range of this ack. */
  ghost predicate Confirmed(w: Window<Unacked>, packet: AckPacket, i: nat)
    requires i < |w.items|
  {
    w.items[i].ackd || exists r :: r in packet.ranges && r.first <= w.NumberAt(i) <= r.last
  }

  /** Drops the first k packets, and of the others marks the confirmed ones. */
  ghost predicate TrimmedTo(w: Window<Unacked>, packet: AckPacket, k: nat, rest: seq<Unacked>) {
    && k + |rest| == |w.items| && (forall i :: 0 <= i < k ==> Confirmed(w, packet, i))
    && (rest != [] ==> !Confirmed(w, packet, k))
    && forall i :: 0 <= i < |rest| ==> rest[i] == w.items[k + i].(ackd := Confirmed(w, packet, k + i))
  }

  ghost predicate Steered(c: SendControl, c': SendControl, packet: AckPacket) {
    if packet.info.None? then c' == c
    else
      && SegmentAdjusted(c, c') && WindowAdjusted(c, c', packet.info.value.availableBufferSize)
      && c'.lostPackets == c'.corruptedPackets == 0 && c'.allowedLost == c.allowedLost
  }

  lemma MarkedIsConfirmed(w: Window<Unacked>, packet: AckPacket, i: nat)
    requires i < |w.items|
    ensures MarkAcked(w, packet.ranges).items[i] == w.items[i].(ackd := Confirmed(w, packet, i))
  {
    CoversIsInRange(packet.ranges, w.NumberAt(i));
  }

  lemma MarksConfirmed(s: SenderState, packet: AckPacket) returns (k: nat)
    requires s.Valid()
    ensures var s' := Acknowledge(s, packet).0;
      && TrimmedTo(s.window, packet, k, s'.window.items) && s'.window.begin == s.window.NumberAt(k)
      && s' == s.(window := s'.window, control := s'.control)
  {
    var w := MarkAcked(s.window, packet.ranges);
    k := TrimPosition(w.items, 0);
    forall i | 0 <= i < |w.items| ensures w.items[i] == s.window.items[i].(ackd := Confirmed(s.window, packet, i)) {
      MarkedIsConfirmed(s.window, packet, i);
    }
  }

  lemma AckSteers(s: SenderState, packet: AckPacket)
    requires s.Valid()
    ensures Steered(s.control, Acknowledge(s, packet).0.control, packet)
  {
    if packet.info.Some? {
      AckAdjusts(s.control, packet.info.value.availableBufferSize);
    }
  }

  lemma CoversIsInRange(ranges: seq<Range>, n: nat)
    ensures Covers(ranges, n) <==> exists r :: r in ranges && r.first <= n <= r.last
  {
    if r :| r in ranges && r.first <= n <= r.last {
      var i :| 0 <= i < |ranges| && ranges[i] == r;
    }
  }

  /** An ack drops exactly the packets in front of the first one that is not confirmed, and then, if it has
      dropped any, sends one of the lost ones that are left. A report of the peer's buffer steers both sizes;
      an ack without one leaves them alone. */
  lemma AckDropsConfirmed(s: SenderState, packet: AckPacket, now: int, failures: nat) returns (k: nat, rest: seq<Unacked>)
    requires s.Valid()
    ensures TrimmedTo(s.window, packet, k, rest)
    ensures var r := SenderSpec.HandleAck(s, packet, now, failures);
      && r.state.window.begin == s.window.NumberAt(k) && r.state.currentMessage == s.currentMessage
      && Steered(s.control, r.state.control, packet)
      && if k == 0 then r.packets == [] && r.state.window.items == rest && r.state.timeout == s.timeout
         else SendsOneOf(LostAt(rest), rest, r, now, failures)
  {
    k := MarksConfirmed(s, packet);
    AckSteers(s, packet);
    var s' := Acknowledge(s, packet).0;
    rest := s'.window.items;
    SendingSendsOne(s', now, failures);
  }

  // ---- Ticks ----

  /** The positions of packets that are not acknowledged and were last sent more than 300 ago. */
  function OverdueAt(items: seq<Unacked>, now: int): set<nat> {
    set i | 0 <= i < |items| && !items[i].ackd && items[i].lastSend.Some? && items[i].lastSend.value + 300 < now
  }

  /** Whether the front packet has never been sent, or was last sent 300 ago or longer. */
  predicate FrontDue(items: seq<Unacked>, now: int) {
    items != [] && (items[0].lastSend.None? || items[0].lastSend.value + 300 <= now)
  }

  lemma {:induction false} ExpiredCountIs(items: seq<Unacked>, now: int, k: nat)
    requires k <= |items|
    ensures ExpiredCount(items, now, k) == |Below(OverdueAt(items, now), k)|
  {
    if k == 0 {
      assert Below(OverdueAt(items, now), 0) == {};
    } else {
      ExpiredCountIs(items, now, k - 1);
      BelowNext(OverdueAt(items, now), k - 1);
    }
  }

  /** The positions that a tick marks. */
  function MarkedByTick(items: seq<Unacked>, now: int): set<nat> {
    if FrontDue(items, now) then OverdueAt(items, now) else {}
  }

  lemma TickMarks(s: SenderState, now: int)
    requires TimesOutWithFront(s)
    ensures var s1 := CheckTimeout(s, now); var items := s.window.items; var marked := MarkedByTick(items, now);
      && |s1.window.items| == |items|
      && (forall i :: 0 <= i < |items| ==> s1.window.items[i] == items[i].(lost := items[i].lost || i in marked))
      && s1.control == s.control.(lostPackets := s.control.lostPackets + |marked|)
      && s1.window.begin == s.window.begin && s1.currentMessage == s.currentMessage
  {
    var items := s.window.items;
    if items == [] {
      assert OverdueAt(items, now) == {};
    }
    ExpiredCountIs(items, now, |items|);
    assert Below(OverdueAt(items, now), |items|) == OverdueAt(items, now);
  }

  /** A tick makes lost, besides what was lost before, exactly the overdue packets, if its front is due, and
      counts them as lost; one of all these is sent. */
  lemma TickMarksOverdue(s: SenderState, now: int, failures: nat)
    requires TimesOutWithFront(s)
    ensures var r := SenderSpec.HandleTick(s, now, failures); var marked := MarkedByTick(s.window.items, now);
      && SendsOneOf(LostAt(s.window.items) + marked, s.window.items, r, now, failures)
      && r.state.control == s.control.(lostPackets := s.control.lostPackets + |marked|)
      && r.state.window.begin == s.window.begin && r.state.currentMessage == s.currentMessage
  {
    TickMarks(s, now);
    SendingAfterMarking(s, CheckTimeout(s, now), MarkedByTick(s.window.items, now), now, failures);
  }

  // ---- Timers ----

  /** Asking for a tick leaves the sooner of the two times. */
  lemma SoonerWins(expiry: Option<int>, time: int)
    ensures var e := Earlier(expiry, time);
      e.Some? && e.value <= time && (expiry.Some? ==> e.value <= expiry.value) && (e.value == time || e == expiry)
  {
  }
}
