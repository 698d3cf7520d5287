/** What a packet or a tick makes of a session, whoever sends the packet. */
module SessionLaws {
  import opened Packets
  import opened SessionSpec
  import opened HandshakeBudget

  /** A packet that the session takes for one of its peer's. */
  predicate FromPeerOf(s: SessionState, p: HandshakePacket) {
    p.nodeId != 0 && (s.peerId == 0 || s.peerId == p.nodeId)
  }

  /** A second stage packet that answers this session, which has retries left and knows its peer's cookie. */
  predicate SecondStageFor(s: SessionState, p: HandshakePacket) {
    && FromPeerOf(s, p) && s.retries > 0 && s.hisCookie != 0
    && p.connectionType != 1 && p.connectionType != 2 && p.synCookie == s.myCookie
  }

  predicate Open(s: SessionState) { s.state == Probing || s.state == Handshaking }

  /** An open session connects exactly on a second stage packet for it that has a valid endpoint and a key. */
  lemma ConnectsExactlyWhen(s: SessionState, p: HandshakePacket)
    requires EstimateValid(s) && Open(s)
    ensures HandleHandshake(s, p).session.state == Connected <==> SecondStageFor(s, p) && p.endpointValid && p.hasPublicKey
  {
  }

  /** It closes exactly on a packet from another node, when its retries have run out, or on such a packet
      without a valid endpoint or a key. A connected session closes on a packet from another node only. */
  lemma ClosesExactlyWhen(s: SessionState, p: HandshakePacket)
    requires EstimateValid(s) && s.state != Closed
    ensures HandleHandshake(s, p).session.state == Closed <==>
      && p.nodeId != 0
      && (|| (s.peerId != 0 && s.peerId != p.nodeId)
          || (Open(s) && s.retries == 0)
          || (Open(s) && SecondStageFor(s, p) && !(p.endpointValid && p.hasPublicKey)))
  {
  }

  /** It takes its peer for connected exactly when it did before, or when a stop packet with its cookie reaches
      it while it is connected and knows its peer's cookie. */
  lemma HearsExactlyWhen(s: SessionState, p: HandshakePacket)
    requires EstimateValid(s) && s.state != Closed
    ensures HandleHandshake(s, p).session.estimate == Connected <==>
      || s.estimate == Connected
      || (s.state == Connected && FromPeerOf(s, p) && s.hisCookie != 0 && p.connectionType == 2 && p.synCookie == s.myCookie)
  {
  }

  /** A session that connects drops exactly when either side has asked for it, and is normal exactly when both
      sides are. It records the number and the type of the packet. */
  lemma WhatConnectingRecords(s: SessionState, p: HandshakePacket)
    requires EstimateValid(s) && Open(s) && HandleHandshake(s, p).session.state == Connected
    ensures var s' := HandleHandshake(s, p).session;
      && (s'.mode == BootstrapAndDrop <==> s.mode == BootstrapAndDrop || p.reason == BootstrapAndDrop)
      && (s'.mode == Normal <==> s.mode == Normal && p.reason == Normal)
      && s'.receivingNumber == p.initialSequenceNumber && s'.peerConnectionType == p.connectionType
      && s'.estimate == Handshaking
  {
  }

  function Types(packets: seq<HandshakePacket>): seq<nat> {
    seq(|packets|, i requires 0 <= i < |packets| => packets[i].connectionType as nat)
  }

  /** A packet is answered with a second stage packet when it is the first initial one, with a second stage and
      a stop packet when it connects the session to stay, and not at all otherwise. */
  lemma WhatIsAnswered(s: SessionState, p: HandshakePacket)
    requires EstimateValid(s) && s.state != Closed
    ensures var o := HandleHandshake(s, p);
      Types(o.sent) ==
        if s.state != Connected && o.session.state == Connected && s.mode != BootstrapAndDrop then [0x0fff_ffff, 2]
        else if Open(s) && FromPeerOf(s, p) && s.retries > 0 && p.connectionType == 1 && s.hisCookie == 0 then [0x0fff_ffff]
        else []
    ensures forall i :: 0 <= i < |HandleHandshake(s, p).sent| ==> HandleHandshake(s, p).sent[i].synCookie == HandleHandshake(s, p).session.hisCookie
  {
  }

  /** Whether a session writes such a packet: one of the first stage tells its own cookie and mode, one of the
      second stage its first data number and its key, and this one and the stop packet return the peer's cookie. */
  predicate WrittenBy(s: SessionState, q: HandshakePacket) {
    && q.nodeId == s.thisId && q.socketId == s.id && q.endpointValid
    && (q.connectionType == 1 ==> q == HandshakePacket(1, 0, s.myCookie, s.mode, s.thisId, false, true, s.id))
    && (q.connectionType == 0x0fff_ffff ==>
          q == HandshakePacket(0x0fff_ffff, s.sendingNumber, s.hisCookie, Normal, s.thisId, true, true, s.id))
    && (q.connectionType == 2 ==> q == HandshakePacket(2, 0, s.hisCookie, Normal, s.thisId, false, true, s.id))
  }

  ghost predicate AllWrittenBy(o: Outcome) {
    forall i :: 0 <= i < |o.sent| ==> WrittenBy(o.session, o.sent[i])
  }

  lemma WhatTicksSay(s: SessionState)
    ensures AllWrittenBy(HandleTick(s))
  {
  }

  lemma WhatAnswersSay(s: SessionState, p: HandshakePacket)
    ensures AllWrittenBy(HandleHandshake(s, p))
  {
  }

  /** All that a session sends at any time is written so. */
  lemma WhatPacketsSay(s: SessionState, event: Event, id: Uint32, thisId: nat, number: Uint32, mode: Mode)
    ensures AllWrittenBy(Apply(s, event)) && AllWrittenBy(SessionSpec.Open(s, id, thisId, number, mode))
  {
    match event
    case Tick => WhatTicksSay(s);
    case Packet(p) => WhatAnswersSay(s, p);
    case Close =>
  }

  /** What a tick sends: an initial packet as long as the peer has not been heard of, with a second stage packet
      once it has; when the session is connected, a second stage and a stop packet until the peer is known to be
      connected, too. Without retries it sends nothing. */
  lemma WhatATickSends(s: SessionState)
    requires EstimateValid(s) && s.state != Closed && s.estimate != Closed
    ensures Types(HandleTick(s).sent) ==
      if s.retries == 0 then []
      else if s.state == Probing then [1]
      else if s.state == Handshaking then [1, 0x0fff_ffff]
      else if s.estimate == Handshaking then [0x0fff_ffff, 2]
      else []
  {
  }
}

/** How a handshake ends: both sides know that the other one is connected, and stop sending. */
module HandshakeEnds {
  import opened Packets
  import opened SequenceNumbers
  import opened SlidingWindows
  import opened Runs
  import opened SessionSpec
  import opened HandshakeBudget
  import opened HandshakeAgreement

  ghost predicate StopInFlight(packets: set<HandshakePacket>) {
    exists q :: q in packets && q.connectionType == 2
  }

  /** Both sides take each other for connected. */
  predicate BothDone(p: Pair) { p.me.session.estimate == Connected && p.peer.session.estimate == Connected }

  // ---- A stop packet ends the handshake ----

  /** A side that has heard that its peer is connected. */
  predicate Done(s: Side) {
    s.started && s.session.estimate == Connected && (s.session.state == Connected || s.session.state == Closed)
  }

  lemma DoneStays(p: Pair, move: Move)
    requires Done(p.me) && Step(p, move).Some?
    ensures Done(Step(p, move).value.me)
  {
  }

  lemma {:induction false} DoneForever(p: Pair, moves: seq<Move>)
    requires Done(p.me) && CanPlay(p, moves)
    ensures Done(Play(p, moves).me)
    decreases |moves|
  {
    if moves != [] {
      DoneStays(p, moves[0]);
      DoneForever(Step(p, moves[0]).value, moves[1..]);
    }
  }

  lemma StopIsHeard(p: Pair, q: HandshakePacket)
    requires Inv(p) && p.me.session.state == Connected && q in p.his && q.connectionType == 2
    ensures Step(p, Left(Receive(q))).Some?
    ensures var p' := Step(p, Left(Receive(q))).value;
      && p'.me.session.estimate == Connected && p'.me.session.state == Connected
      && p'.peer == p.peer && p'.mine == p.mine && p'.his == p.his
  {
    assert Honest(q, p.peer);
  }

  /** In every run: when a connected side receives a stop packet that is in flight, it takes its peer for
      connected from then on, and its ticks add nothing to its packets, whatever happens. */
  lemma StopEndsTicks(start: Pair, moves: seq<Move>, q: HandshakePacket, more: seq<Move>)
    requires Init(start) && CanPlay(start, moves)
    requires var p := Play(start, moves);
      && p.me.session.state == Connected && q in p.his && q.connectionType == 2
      && CanPlay(p, [Left(Receive(q))] + more)
    ensures Step(Play(start, moves), Left(Receive(q))).Some?
    ensures var later := Play(Play(start, moves), [Left(Receive(q))] + more);
      && later.me.session.estimate == Connected
      && Step(later, Left(TimerTick)).Some? && Step(later, Left(TimerTick)).value.mine == later.mine
  {
    PlayKeepsInv(start, moves);
    var p := Play(start, moves);
    StopIsHeard(p, q);
    RunFirst(Step, p, Left(Receive(q)), more);
    var p' := Step(p, Left(Receive(q))).value;
    MoveKeepsInv(p, Left(Receive(q)));
    DoneForever(p', more);
    DoneTicksSilently(Play(p', more));
  }

  lemma DoneTicksSilently(p: Pair)
    requires Done(p.me)
    ensures Step(p, Left(TimerTick)).Some? && Step(p, Left(TimerTick)).value.mine == p.mine
  {
    assert p.mine + {} == p.mine;
  }

  // ---- When both can hear of each other ----

  /** Whether the left side has heard, or can still hear, that the right one is connected, when both are. */
  ghost predicate CanHear(p: Pair) {
    || p.me.session.estimate == Connected || StopInFlight(p.his)
    || (p.peer.session.estimate == Handshaking && p.peer.session.retries > 0)
  }

  ghost predicate CanFinish(p: Pair) { CanHear(p) && CanHear(p.Swap()) }

  /** A side that will send nothing more, and has been connected. */
  predicate Mute(s: Side) {
    && s.started && (s.session.state == Connected || s.session.state == Closed)
    && (s.session.estimate == Handshaking || s.session.estimate == Connected)
    && (s.session.retries == 0 || s.session.estimate == Connected)
  }

  /** The left side will never hear that the right one is connected. */
  ghost predicate Deaf(p: Pair) {
    p.me.started && p.me.session.estimate != Connected && Mute(p.peer) && !StopInFlight(p.his)
  }

  lemma MuteSendsNothing(p: Pair, action: Action)
    requires Mute(p.me) && CanAct(p, action)
    ensures Mute(Act(p, action).me) && Act(p, action).mine <= p.mine
  {
  }

  lemma NotHearing(p: Pair, action: Action)
    requires p.me.started && p.me.session.estimate != Connected && !StopInFlight(p.his) && CanAct(p, action)
    ensures Act(p, action).me.started && Act(p, action).me.session.estimate != Connected
    ensures Act(p, action).his == p.his && Act(p, action).peer == p.peer
  {
    if action.Receive? {
      assert action.packet.connectionType != 2;
    }
  }

  lemma DeafStays(p: Pair, move: Move)
    requires Deaf(p) && Step(p, move).Some?
    ensures Deaf(Step(p, move).value)
  {
    match move
    case Left(action) => NotHearing(p, action);
    case Right(action) => MuteSendsNothing(p.Swap(), action);
  }

  lemma {:induction false} DeafForever(p: Pair, moves: seq<Move>)
    requires Deaf(p) && CanPlay(p, moves)
    ensures Deaf(Play(p, moves))
    decreases |moves|
  {
    if moves != [] {
      DeafStays(p, moves[0]);
      DeafForever(Step(p, moves[0]).value, moves[1..]);
    }
  }

  /** Moves seen from the other side. */
  function Mirrored(moves: seq<Move>): seq<Move> {
    seq(|moves|, i requires 0 <= i < |moves| => Mirror(moves[i]))
  }

  function Mirror(move: Move): Move {
    match move
    case Left(action) => Right(action)
    case Right(action) => Left(action)
  }

  lemma {:induction false} PlayMirrored(p: Pair, moves: seq<Move>)
    requires CanPlay(p, moves)
    ensures CanPlay(p.Swap(), Mirrored(moves)) && Play(p.Swap(), Mirrored(moves)) == Play(p, moves).Swap()
    decreases |moves|
  {
    if moves != [] {
      assert Mirrored(moves)[1..] == Mirrored(moves[1..]);
      PlayMirrored(Step(p, moves[0]).value, moves[1..]);
    }
  }

  /** A tick of a connected side that has not heard of its peer puts a stop packet in flight. */
  lemma TickSendsStop(p: Pair)
    requires p.me.started && p.me.session.state == Connected && p.me.session.estimate == Handshaking && p.me.session.retries > 0
    ensures Step(p, Left(TimerTick)).Some?
    ensures var p' := Step(p, Left(TimerTick)).value;
      && StopInFlight(p'.mine) && p'.peer == p.peer && p'.his == p.his && p.mine <= p'.mine
      && p'.me.session.state == Connected && p'.me.session.estimate == Handshaking
  {
    var q := SendConnected(SendCookie(p.me.session).session).sent[0];
    assert q in Step(p, Left(TimerTick)).value.mine && q.connectionType == 2;
  }

  ghost predicate Told(p: Pair) { p.me.session.estimate == Connected || StopInFlight(p.his) }

  /** If need be, the left side tells the right one that it is connected. */
  lemma LeftTells(p: Pair) returns (moves: seq<Move>)
    requires Inv(p) && BothConnected(p) && CanHear(p.Swap())
    ensures CanPlay(p, moves)
    ensures var p' := Play(p, moves);
      && Inv(p') && BothConnected(p') && Told(p'.Swap())
      && p'.peer == p.peer && p'.his == p.his && p'.me.session.estimate == p.me.session.estimate
      && (p'.me.session.retries == p.me.session.retries || p'.me.session.estimate == Handshaking)
  {
    if Told(p.Swap()) {
      moves := [];
    } else {
      TickSendsStop(p);
      MoveKeepsInv(p, Left(TimerTick));
      RunOne(Step, p, Left(TimerTick));
      moves := [Left(TimerTick)];
    }
  }

  lemma RightTells(p: Pair) returns (moves: seq<Move>)
    requires Inv(p) && BothConnected(p) && CanHear(p)
    ensures CanPlay(p, moves)
    ensures var p' := Play(p, moves);
      && Inv(p') && BothConnected(p') && Told(p')
      && p'.me == p.me && p'.mine == p.mine && p'.peer.session.estimate == p.peer.session.estimate
  {
    var mirrored := LeftTells(p.Swap());
    PlayMirrored(p.Swap(), mirrored);
    moves := Mirrored(mirrored);
  }

  /** A side that has been told hears it. */
  lemma LeftHears(p: Pair) returns (moves: seq<Move>)
    requires Inv(p) && BothConnected(p) && Told(p)
    ensures CanPlay(p, moves)
    ensures var p' := Play(p, moves);
      && Inv(p') && BothConnected(p') && p'.me.session.estimate == Connected
      && p'.peer == p.peer && p'.mine == p.mine && p'.his == p.his
  {
    if p.me.session.estimate == Connected {
      moves := [];
    } else {
      var q :| q in p.his && q.connectionType == 2;
      StopIsHeard(p, q);
      MoveKeepsInv(p, Left(Receive(q)));
      RunOne(Step, p, Left(Receive(q)));
      moves := [Left(Receive(q))];
    }
  }

  lemma RightHears(p: Pair) returns (moves: seq<Move>)
    requires Inv(p) && BothConnected(p) && Told(p.Swap())
    ensures CanPlay(p, moves)
    ensures var p' := Play(p, moves);
      && Inv(p') && BothConnected(p') && p'.peer.session.estimate == Connected
      && p'.me == p.me && p'.mine == p.mine && p'.his == p.his
  {
    var mirrored := LeftHears(p.Swap());
    PlayMirrored(p.Swap(), mirrored);
    moves := Mirrored(mirrored);
  }

  lemma BothHear(p: Pair) returns (moves: seq<Move>)
    requires Inv(p) && BothConnected(p) && Told(p) && Told(p.Swap())
    ensures CanPlay(p, moves) && BothDone(Play(p, moves)) && BothConnected(Play(p, moves))
  {
    var left := LeftHears(p);
    var p1 := Play(p, left);
    var right := RightHears(p1);
    RunAppend(Step, p, left, right);
    moves := left + right;
  }

  /** Each tells the other, as far as need be, before either of them hears and falls silent. */
  lemma Finish(p: Pair) returns (moves: seq<Move>)
    requires Inv(p) && BothConnected(p) && CanFinish(p)
    ensures CanPlay(p, moves) && BothDone(Play(p, moves)) && BothConnected(Play(p, moves))
  {
    var left := LeftTells(p);
    var p1 := Play(p, left);
    var right := RightTells(p1);
    var p2 := Play(p1, right);
    var hear := BothHear(p2);
    RunAppend(Step, p1, right, hear);
    RunAppend(Step, p, left, right + hear);
    moves := left + (right + hear);
  }

  lemma DeafWhenNotHearing(p: Pair)
    requires Inv(p) && BothConnected(p) && !CanHear(p)
    ensures Deaf(p)
  {
  }

  /** In every run in which both sides have got connected, some continuation lets both know it exactly when
      each of them knows already, or a stop packet for it is in flight, or the other one does not know yet and
      has retries left. */
  lemma FinishesExactlyWhen(start: Pair, moves: seq<Move>)
    requires Init(start) && CanPlay(start, moves) && BothConnected(Play(start, moves))
    ensures var p := Play(start, moves);
      CanFinish(p) <==> exists more :: CanPlay(p, more) && BothDone(Play(p, more))
  {
    PlayKeepsInv(start, moves);
    var p := Play(start, moves);
    if CanFinish(p) {
      var more := Finish(p);
    } else if !CanHear(p) {
      DeafWhenNotHearing(p);
      forall more | CanPlay(p, more) ensures !BothDone(Play(p, more)) {
        DeafForever(p, more);
      }
    } else {
      DeafWhenNotHearing(p.Swap());
      forall more | CanPlay(p, more) ensures !BothDone(Play(p, more)) {
        PlayMirrored(p, more);
        DeafForever(p.Swap(), Mirrored(more));
      }
    }
  }

  // ---- Half-open pairs ----

  /** The other side can still connect, and a stop packet can still reach it then. */
  ghost predicate CanFinishHalfOpen(p: Pair) {
    && p.peer.session.mode != BootstrapAndDrop && p.peer.session.retries > 0
    && (p.me.session.retries > 0 || (SecondStageInFlight(p.mine) && StopInFlight(p.mine)))
  }

  lemma HalfOpenHasNotHeard(p: Pair)
    requires Inv(p) && HalfOpen(p)
    ensures p.me.session.estimate == Handshaking && p.peer.session.estimate == Probing && p.me.started && p.peer.started
    ensures p.peer.session.state == Handshaking && p.peer.session.hisCookie != 0
  {
  }

  /** A second stage packet connects the other side, which answers with a stop packet at once. */
  lemma SecondStageIsAnswered(p: Pair, q: HandshakePacket)
    requires Inv(p) && HalfOpen(p) && p.peer.session.retries > 0 && p.peer.session.mode != BootstrapAndDrop
    requires q in p.mine && q.IsSecondStage()
    ensures Step(p, Right(Receive(q))).Some?
    ensures var p' := Step(p, Right(Receive(q))).value;
      BothConnected(p') && StopInFlight(p'.his) && p'.mine == p.mine && p'.me == p.me
  {
    SecondStageConnects(p, q);
    assert Honest(q, p.me);
    var o := HandleHandshake(p.peer.session, q);
    assert o.sent[1] in Step(p, Right(Receive(q))).value.his && o.sent[1].connectionType == 2;
  }

  lemma HalfOpenWithPackets(p: Pair) returns (moves: seq<Move>)
    requires Inv(p) && HalfOpen(p) && p.peer.session.retries > 0 && p.peer.session.mode != BootstrapAndDrop
    requires SecondStageInFlight(p.mine) && StopInFlight(p.mine)
    ensures CanPlay(p, moves) && BothDone(Play(p, moves))
  {
    var q :| q in p.mine && q.IsSecondStage();
    SecondStageIsAnswered(p, q);
    MoveKeepsInv(p, Right(Receive(q)));
    var p1 := Step(p, Right(Receive(q))).value;
    var hear := BothHear(p1);
    RunFirst(Step, p, Right(Receive(q)), hear);
    moves := [Right(Receive(q))] + hear;
  }

  lemma FinishHalfOpen(p: Pair) returns (moves: seq<Move>)
    requires Inv(p) && HalfOpen(p) && CanFinishHalfOpen(p)
    ensures CanPlay(p, moves) && BothDone(Play(p, moves))
  {
    if SecondStageInFlight(p.mine) && StopInFlight(p.mine) {
      moves := HalfOpenWithPackets(p);
    } else {
      HalfOpenHasNotHeard(p);
      TickResends(p);
      TickSendsStop(p);
      MoveKeepsInv(p, Left(TimerTick));
      var more := HalfOpenWithPackets(Step(p, Left(TimerTick)).value);
      RunFirst(Step, p, Left(TimerTick), more);
      moves := [Left(TimerTick)] + more;
    }
  }

  /** The right side of a dead pair that has not heard of its peer never will. */
  lemma {:induction false} DeadNeverHears(p: Pair, moves: seq<Move>)
    requires Dead(p) && p.peer.session.estimate != Connected && CanPlay(p, moves)
    ensures Play(p, moves).peer.session.estimate != Connected
    decreases |moves|
  {
    if moves != [] {
      DeadStepNeverHears(p, moves[0]);
      DeadNeverHears(Step(p, moves[0]).value, moves[1..]);
    }
  }

  lemma DeadStepNeverHears(p: Pair, move: Move)
    requires Dead(p) && p.peer.session.estimate != Connected && Step(p, move).Some?
    ensures Dead(Step(p, move).value) && Step(p, move).value.peer.session.estimate != Connected
  {
    match move
    case Left(action) => DeadOnTheLeft(p, action);
    case Right(action) => DeadOnTheRight(p, action);
  }

  /** In every run a half-open pair can still get both sides to know that both are connected exactly when the
      other side has opened to stay and has retries left, and the connected one has retries left or has both a
      second stage and a stop packet in flight. */
  lemma HalfOpenFinishesExactlyWhen(start: Pair, moves: seq<Move>)
    requires Init(start) && CanPlay(start, moves) && HalfOpen(Play(start, moves))
    ensures var p := Play(start, moves);
      CanFinishHalfOpen(p) <==> exists more :: CanPlay(p, more) && BothDone(Play(p, more))
  {
    PlayKeepsInv(start, moves);
    var p := Play(start, moves);
    HalfOpenHasNotHeard(p);
    if CanFinishHalfOpen(p) {
      var more := FinishHalfOpen(p);
    } else if !CanComplete(p) {
      assert Dead(p);
      forall more | CanPlay(p, more) ensures !BothDone(Play(p, more)) {
        DeadNeverHears(p, more);
      }
    } else {
      assert Deaf(p.Swap());
      forall more | CanPlay(p, more) ensures !BothDone(Play(p, more)) {
        PlayMirrored(p, more);
        DeafForever(p.Swap(), Mirrored(more));
      }
    }
  }

  /** From the start every pair of sides that do not know each other can get that far. */
  lemma EveryHandshakeCanFinish(start: Pair, number: SeqNum) returns (moves: seq<Move>)
    requires Init(start) && Unacquainted(start.me) && Unacquainted(start.peer)
    ensures CanPlay(start, moves) && BothDone(Play(start, moves))
  {
    var opening := HalfwayIsReached(start, number, Normal);
    var p := Play(start, opening);
    PlayKeepsInv(start, opening);
    var more := FinishHalfOpen(p);
    RunAppend(Step, start, opening, more);
    moves := opening + more;
  }

  /** A half-open pair gets connected while a stop packet for the right side is in flight. */
  lemma ConnectsWithStop(p: Pair) returns (moves: seq<Move>)
    requires Inv(p) && HalfOpen(p) && p.peer.session.retries > 0 && p.peer.session.mode != BootstrapAndDrop
    requires p.me.session.retries > 0
    ensures CanPlay(p, moves)
    ensures var p' := Play(p, moves);
      Inv(p') && BothConnected(p') && StopInFlight(p'.mine) && p'.me.session.estimate == Handshaking
  {
    HalfOpenHasNotHeard(p);
    TickResends(p);
    TickSendsStop(p);
    MoveKeepsInv(p, Left(TimerTick));
    var p1 := Step(p, Left(TimerTick)).value;
    var q :| q in p1.mine && q.IsSecondStage();
    SecondStageIsAnswered(p1, q);
    MoveKeepsInv(p1, Right(Receive(q)));
    RunOne(Step, p1, Right(Receive(q)));
    RunFirst(Step, p, Left(TimerTick), [Right(Receive(q))]);
    moves := [Left(TimerTick)] + [Right(Receive(q))];
  }

  lemma RightLosesAll(p: Pair)
    ensures Step(p, Right(Lose({}))) == Some(p.(his := {}))
  {
  }

  /** A pair can get connected so that one side never learns it: the other one hears, and all that it has sent
      is lost. */
  lemma OneSideCanMissIt(start: Pair, number: SeqNum) returns (moves: seq<Move>)
    requires Init(start) && Unacquainted(start.me) && Unacquainted(start.peer)
    ensures CanPlay(start, moves)
    ensures var p := Play(start, moves);
      BothConnected(p) && !CanFinish(p) && p.peer.session.estimate == Connected
  {
    var opening := HalfwayIsReached(start, number, Normal);
    var p := Play(start, opening);
    PlayKeepsInv(start, opening);
    var connect := ConnectsWithStop(p);
    var p1 := Play(p, connect);
    var hear := RightHears(p1);
    var p2 := Play(p1, hear);
    RightLosesAll(p2);
    RunOne(Step, p2, Right(Lose({})));
    RunAppend(Step, p1, hear, [Right(Lose({}))]);
    RunAppend(Step, p, connect, hear + [Right(Lose({}))]);
    RunAppend(Step, start, opening, connect + (hear + [Right(Lose({}))]));
    moves := opening + (connect + (hear + [Right(Lose({}))]));
  }
}
