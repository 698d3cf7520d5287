/** The handshake of one side, as functions on values: the reference that the Session class is proved against. */
module SessionSpec {
  import opened SequenceNumbers
  import opened Packets

  const MAXIMUM_HANDSHAKE_FAILURES: nat := 40
  const COOKIE: Uint32 := 0xdead_beef
  /** Parameters::connection_type, the type that marks a second stage packet. */
  const CONNECTION_TYPE: Uint32 := 0x0fff_ffff

  datatype State = Closed | Probing | Handshaking | Connected
  datatype Mode = Normal | BootstrapAndDrop | BootstrapAndKeep

  /** The fields of a handshake packet that decide something. Keys and endpoints are reduced to whether
      they are present and valid, node ids are numbers with 0 as the zero id. */
  datatype HandshakePacket = HandshakePacket(
    connectionType: Uint32,
    initialSequenceNumber: Uint32,
    synCookie: Uint32,
    reason: Mode,
    nodeId: nat,
    hasPublicKey: bool,
    endpointValid: bool,
    socketId: Uint32)
  {
    predicate IsInitial() { connectionType == 1 }
    predicate IsConnected() { connectionType == 2 }
    predicate IsSecondStage() { connectionType != 1 && connectionType != 2 }
  }

  datatype SessionState = SessionState(
    state: State,
    estimate: State,
    retries: nat,
    myCookie: Uint32,
    hisCookie: Uint32,
    sendingNumber: Uint32,
    receivingNumber: Uint32,
    peerConnectionType: Uint32,
    mode: Mode,
    thisId: nat,
    peerId: nat,
    // The socket ids of this side and, as soon as a packet has told it, of the other.
    id: Uint32,
    peerSocket: Uint32)

  /** A new state and the handshake packets handed to the network on the way to it. */
  datatype Outcome = Outcome(session: SessionState, sent: seq<HandshakePacket>) {
    function Then(next: SessionState -> Outcome): Outcome {
      var o := next(session);
      Outcome(o.session, sent + o.sent)
    }
  }

  function CountDown(s: SessionState): SessionState {
    if s.retries > 0 then s.(retries := s.retries - 1) else s
  }

  function SendConnectionRequest(s: SessionState): Outcome {
    Outcome(CountDown(s), [HandshakePacket(1, 0, s.myCookie, s.mode, s.thisId, false, true, s.id)])
  }

  function SendCookie(s: SessionState): Outcome {
    Outcome(CountDown(s), [HandshakePacket(CONNECTION_TYPE, s.sendingNumber, s.hisCookie, Normal, s.thisId, true, true, s.id)])
  }

  function SendConnected(s: SessionState): Outcome {
    Outcome(CountDown(s), [HandshakePacket(2, 0, s.hisCookie, Normal, s.thisId, false, true, s.id)])
  }

  function Opened(s: SessionState, id: Uint32, thisId: nat, number: Uint32, mode: Mode): SessionState {
    s.(id := id, thisId := thisId, sendingNumber := number, mode := mode, retries := MAXIMUM_HANDSHAKE_FAILURES,
       myCookie := COOKIE, hisCookie := 0, estimate := Probing, state := Probing)
  }

  function Open(s: SessionState, id: Uint32, thisId: nat, number: Uint32, mode: Mode): Outcome {
    SendConnectionRequest(Opened(s, id, thisId, number, mode))
  }

  function AdoptMode(mode: Mode, reason: Mode): Mode {
    var m := if reason != Normal && mode == Normal then reason else mode;
    if reason == BootstrapAndDrop && m == BootstrapAndKeep then BootstrapAndDrop else m
  }

  function Connect(s: SessionState, p: HandshakePacket): SessionState {
    s.(state := Connected,
       estimate := if s.estimate == Closed || s.estimate == Probing then Handshaking else s.estimate,
       peerConnectionType := p.connectionType,
       receivingNumber := p.initialSequenceNumber,
       mode := if s.mode == BootstrapAndDrop then s.mode else AdoptMode(s.mode, p.reason))
  }

  function WhenHandshaking(s: SessionState, p: HandshakePacket): Outcome {
    if !p.endpointValid || !p.hasPublicKey then Outcome(s.(state := Closed), [])
    else
      var s' := Connect(s, p);
      if s.mode != BootstrapAndDrop && s.state != Connected
      then SendCookie(s').Then(SendConnected)
      else Outcome(s', [])
  }

  function WhenProbing(s: SessionState, p: HandshakePacket): Outcome {
    if p.IsConnected() then Outcome(s, [])
    else if p.IsInitial() then
      if s.hisCookie != 0 then Outcome(s, []) else SendCookie(s.(hisCookie := p.synCookie, state := Handshaking))
    else if s.hisCookie == 0 || p.synCookie != s.myCookie then Outcome(s, [])
    else WhenHandshaking(s, p)
  }

  /** HandleHandshake once the sender of the packet is known to be the peer. */
  function FromPeer(s: SessionState, p: HandshakePacket): Outcome {
    if s.state == Closed then Outcome(s, [])
    else if s.state != Connected && s.retries == 0 then Outcome(s.(state := Closed), [])
    else if s.estimate == Probing then WhenProbing(s, p)
    else if p.synCookie != s.myCookie || s.hisCookie == 0 then Outcome(s, [])
    else if p.IsConnected() then Outcome(s.(estimate := Connected), [])
    else if s.state == Handshaking then WhenHandshaking(s, p)
    else Outcome(s, [])
  }

  /** The first packet tells the socket id of the peer. */
  function Addressed(s: SessionState, p: HandshakePacket): SessionState {
    if s.peerSocket == 0 then s.(peerSocket := p.socketId) else s
  }

  function HandleHandshake(s: SessionState, p: HandshakePacket): Outcome {
    FromAnyone(Addressed(s, p), p)
  }

  function FromAnyone(s: SessionState, p: HandshakePacket): Outcome {
    if p.nodeId == 0 then Outcome(s, [])
    else if s.peerId == 0 then FromPeer(s.(peerId := p.nodeId), p)
    else if s.peerId != p.nodeId then Outcome(s.(state := Closed), [])
    else FromPeer(s, p)
  }

  /** A session that connected only to see whether its peer is there. */
  predicate Drops(s: SessionState, s': SessionState) {
    s.state != Connected && s'.state == Connected && s'.mode == BootstrapAndDrop
  }

  function TickRequest(s: SessionState): Outcome {
    if s.state == Probing || s.estimate == Probing then SendConnectionRequest(s) else Outcome(s, [])
  }

  function TickCookie(s: SessionState): Outcome {
    if s.state == Handshaking || s.estimate == Handshaking then SendCookie(s) else Outcome(s, [])
  }

  function TickConnected(s: SessionState): Outcome {
    if s.state == Connected && s.estimate == Handshaking then SendConnected(s) else Outcome(s, [])
  }

  function HandleTick(s: SessionState): Outcome {
    if s.retries == 0 then Outcome(s, []) else TickRequest(s).Then(TickCookie).Then(TickConnected)
  }
}

/** One side of a handshake. */
module Sessions {
  import opened Packets
  import opened TickTimers
  import opened SessionSpec

  const RETRY_INTERVAL: int := 250

  class Session {
    const timer: TickTimer
    var state: State
    var estimate: State
    var retries: nat
    var myCookie: Uint32
    var hisCookie: Uint32
    var sendingNumber: Uint32
    var receivingNumber: Uint32
    var peerConnectionType: Uint32
    var mode: Mode
    var thisId: nat
    var peerId: nat
    var id: Uint32
    var peerSocket: Uint32

    ghost function View(): SessionState
      reads this
    {
      SessionState(state, estimate, retries, myCookie, hisCookie, sendingNumber, receivingNumber, peerConnectionType,
                   mode, thisId, peerId, id, peerSocket)
    }

    constructor (timer: TickTimer, peer: nat)
      ensures this.timer == timer
      ensures View() == SessionState(Closed, Closed, 0, 0, 0, 0, 0, 0, Normal, 0, peer, 0, 0)
    {
      this.timer := timer;
      state, estimate, retries, myCookie, hisCookie := Closed, Closed, 0, 0, 0;
      sendingNumber, receivingNumber, peerConnectionType := 0, 0, 0;
      mode, thisId, peerId, id, peerSocket := Normal, 0, peer, 0, 0;
    }

    method Open(socketId: Uint32, nodeId: nat, number: Uint32, openMode: Mode, now: int) returns (sent: seq<HandshakePacket>)
      requires state == Closed
      modifies this, timer
      ensures Outcome(View(), sent) == SessionSpec.Open(old(View()), socketId, nodeId, number, openMode)
      ensures timer.expiry == if sent == [] then old(timer.expiry) else Earlier(old(timer.expiry), now + 250)
    {
      SetUp(socketId, nodeId, number, openMode);
      sent := SendConnectionRequest(now);
    }

    /** What Open sets before it sends. */
    method SetUp(socketId: Uint32, nodeId: nat, number: Uint32, openMode: Mode)
      modifies this
      ensures View() == Opened(old(View()), socketId, nodeId, number, openMode)
    {
      id := socketId;
      thisId := nodeId;
      sendingNumber := number;
      mode := openMode;
      retries := MAXIMUM_HANDSHAKE_FAILURES;
      myCookie := COOKIE;
      hisCookie := 0;
      estimate := Probing;
      state := Probing;
    }

    method Close()
      modifies this`state
      ensures View() == old(View()).(state := Closed)
    {
      state := Closed;
    }

    method SendConnectionRequest(now: int) returns (sent: seq<HandshakePacket>)
      modifies this`retries, timer
      ensures Outcome(View(), sent) == SessionSpec.SendConnectionRequest(old(View()))
      ensures timer.expiry == if sent == [] then old(timer.expiry) else Earlier(old(timer.expiry), now + RETRY_INTERVAL)
    {
      if retries > 0 {
        retries := retries - 1;
      }
      sent := [HandshakePacket(1, 0, myCookie, mode, thisId, false, true, id)];
      timer.TickAt(now + RETRY_INTERVAL);
    }

    method SendCookie(now: int) returns (sent: seq<HandshakePacket>)
      modifies this`retries, timer
      ensures Outcome(View(), sent) == SessionSpec.SendCookie(old(View()))
      ensures timer.expiry == if sent == [] then old(timer.expiry) else Earlier(old(timer.expiry), now + RETRY_INTERVAL)
    {
      if retries > 0 {
        retries := retries - 1;
      }
      sent := [HandshakePacket(CONNECTION_TYPE, sendingNumber, hisCookie, Normal, thisId, true, true, id)];
      timer.TickAt(now + RETRY_INTERVAL);
    }

    method SendConnected(now: int) returns (sent: seq<HandshakePacket>)
      modifies this`retries, timer
      ensures Outcome(View(), sent) == SessionSpec.SendConnected(old(View()))
      ensures timer.expiry == if sent == [] then old(timer.expiry) else Earlier(old(timer.expiry), now + RETRY_INTERVAL)
    {
      if retries > 0 {
        retries := retries - 1;
      }
      sent := [HandshakePacket(2, 0, hisCookie, Normal, thisId, false, true, id)];
      timer.TickAt(now + RETRY_INTERVAL);
    }

    method HandleHandshakeWhenProbing(p: HandshakePacket, now: int) returns (sent: seq<HandshakePacket>)
      modifies this, timer
      ensures Outcome(View(), sent) == WhenProbing(old(View()), p)
      ensures timer.expiry == if sent == [] then old(timer.expiry) else Earlier(old(timer.expiry), now + RETRY_INTERVAL)
    {
      sent := [];
      if p.connectionType == 2 {
        return;
      } else if p.connectionType == 1 {
        if hisCookie != 0 {
          return;
        }
        hisCookie := p.synCookie;
        state := Handshaking;
        sent := SendCookie(now);
      } else {
        if hisCookie != 0 && p.synCookie != myCookie {
          return;
        } else if hisCookie == 0 {
          return;
        }
        sent := HandleHandshakeWhenHandshaking(p, now);
      }
    }

    method HandleHandshakeWhenHandshaking(p: HandshakePacket, now: int) returns (sent: seq<HandshakePacket>)
      modifies this, timer
      ensures Outcome(View(), sent) == WhenHandshaking(old(View()), p)
      ensures timer.expiry == if sent == [] then old(timer.expiry) else Earlier(old(timer.expiry), now + RETRY_INTERVAL)
    {
      sent := [];
      if !p.endpointValid {
        state := Closed;
        return;
      }
      if !p.hasPublicKey {
        state := Closed;
        return;
      }
      var quickCookie := state != Connected;
      state := Connected;
      if estimate == Closed || estimate == Probing {
        estimate := Handshaking;
      }
      peerConnectionType := p.connectionType;
      receivingNumber := p.initialSequenceNumber;
      if mode == BootstrapAndDrop {
        return;
      }
      if p.reason != Normal && mode == Normal {
        mode := p.reason;
      }
      if p.reason == BootstrapAndDrop && mode == BootstrapAndKeep {
        mode := BootstrapAndDrop;
      }
      if quickCookie {
        sent := SendCookie(now);
        var more := SendConnected(now);
        sent := sent + more;
      }
    }

    method HandleHandshake(p: HandshakePacket, now: int) returns (sent: seq<HandshakePacket>)
      modifies this, timer
      ensures Outcome(View(), sent) == SessionSpec.HandleHandshake(old(View()), p)
      ensures timer.expiry == if sent == [] then old(timer.expiry) else Earlier(old(timer.expiry), now + 250)
    {
      sent := [];
      if peerSocket == 0 {
        peerSocket := p.socketId;
      }
      if p.nodeId == 0 {
        return;
      }
      if peerId == 0 {
        peerId := p.nodeId;
      } else if peerId != p.nodeId {
        state := Closed;
        return;
      }
      if state == Closed {
        return;
      }
      if state != Connected && retries == 0 {
        state := Closed;
        return;
      }
      if estimate == Probing {
        sent := HandleHandshakeWhenProbing(p, now);
        return;
      }
      if p.synCookie != myCookie {
        return;
      }
      if hisCookie == 0 {
        return;
      }
      if p.connectionType == 2 {
        estimate := Connected;
      } else if state == Handshaking {
        sent := HandleHandshakeWhenHandshaking(p, now);
      }
    }

    method HandleTick(now: int) returns (sent: seq<HandshakePacket>)
      modifies this`retries, timer
      ensures Outcome(View(), sent) == SessionSpec.HandleTick(old(View()))
      ensures timer.expiry == if sent == [] then old(timer.expiry) else Earlier(old(timer.expiry), now + 250)
    {
      sent := [];
      if retries > 0 {
        if state == Probing || estimate == Probing {
          sent := SendConnectionRequest(now);
        }
        if state == Handshaking || estimate == Handshaking {
          var more := SendCookie(now);
          sent := sent + more;
        }
        if state == Connected && estimate == Handshaking {
          var more := SendConnected(now);
          sent := sent + more;
        }
      }
    }
  }
}

/** How many handshake packets one session can send, whatever it receives. */
module HandshakeBudget {
  import opened Packets
  import opened SessionSpec

  /** What can happen to a session after Open; the packets need not come from an honest peer. */
  datatype Event = Packet(packet: HandshakePacket) | Tick | Close

  function Apply(s: SessionState, event: Event): Outcome {
    match event
    case Packet(p) => HandleHandshake(s, p)
    case Tick => HandleTick(s)
    case Close => Outcome(s.(state := Closed), [])
  }

  /** How many packets a run sends. */
  function SentBy(s: SessionState, events: seq<Event>): nat
    decreases |events|
  {
    if events == [] then 0
    else
      var o := Apply(s, events[0]);
      |o.sent| + SentBy(o.session, events[1..])
  }

  /** The estimate of the peer leaves Probing only when this session is connected, or closed afterwards. */
  predicate EstimateValid(s: SessionState) {
    (s.estimate != Probing ==> s.state == Connected || s.state == Closed) && (s.state == Connected ==> s.estimate != Probing)
  }

  /** At most two packets are sent, none when the budget is spent, and each is counted down. */
  predicate Spends(s: SessionState, o: Outcome) {
    && EstimateValid(o.session)
    && |o.sent| <= 2 && (s.retries == 0 ==> o.sent == [])
    && o.session.retries == if s.retries >= |o.sent| then s.retries - |o.sent| else 0
  }

  lemma TickSpends(s: SessionState)
    requires EstimateValid(s)
    ensures Spends(s, HandleTick(s))
  {
  }

  lemma PacketSpends(s: SessionState, p: HandshakePacket)
    requires EstimateValid(s)
    ensures Spends(s, HandleHandshake(s, p))
  {
  }

  lemma StepSpends(s: SessionState, event: Event)
    requires EstimateValid(s)
    ensures Spends(s, Apply(s, event))
  {
    match event
    case Tick => TickSpends(s);
    case Packet(p) => PacketSpends(s, p);
    case Close =>
  }

  lemma {:induction false} BudgetFrom(s: SessionState, events: seq<Event>)
    requires EstimateValid(s)
    ensures SentBy(s, events) <= s.retries + 1
    ensures s.retries == 0 ==> SentBy(s, events) == 0
    decreases |events|
  {
    if events != [] {
      StepSpends(s, events[0]);
      BudgetFrom(Apply(s, events[0]).session, events[1..]);
    }
  }

  /** Over the whole life of one Open at most 41 handshake packets are sent. */
  lemma HandshakeBudget(s: SessionState, id: Uint32, thisId: nat, number: Uint32, mode: Mode, events: seq<Event>)
    ensures var o := Open(s, id, thisId, number, mode);
      |o.sent| + SentBy(o.session, events) <= 41
  {
    BudgetFrom(Open(s, id, thisId, number, mode).session, events);
  }

  function Ticks(n: nat): seq<Event> { if n == 0 then [] else [Tick] + Ticks(n - 1) }

  lemma {:induction false} HandshakingTicks(s: SessionState, n: nat)
    requires s.state == Handshaking && s.estimate == Probing && s.retries == 2 * n + 1
    ensures SentBy(s, Ticks(n + 1)) == 2 * n + 2
    decreases n
  {
    var s' := HandleTick(s).session;
    assert Ticks(n + 1)[1..] == Ticks(n);
    if n > 0 {
      HandshakingTicks(s', n - 1);
    }
  }

  /** The bound is exact: one tick, an initial packet from the peer and then nothing but ticks. */
  lemma HandshakeBudgetIsReached(s: SessionState, number: Uint32, peer: HandshakePacket) returns (events: seq<Event>)
    requires peer.IsInitial() && peer.nodeId != 0 && (s.peerId == 0 || s.peerId == peer.nodeId)
    ensures var o := Open(s, 1, 1, number, Normal);
      |o.sent| + SentBy(o.session, events) == 41
  {
    var s0 := Open(s, 1, 1, number, Normal).session;
    var s1 := HandleTick(s0).session;
    var s2 := HandleHandshake(s1, peer).session;
    HandshakingTicks(s2, 18);
    var later := [Packet(peer)] + Ticks(19);
    SentByFirst(s1, Packet(peer), Ticks(19));
    SentByFirst(s0, Tick, later);
    events := [Tick] + later;
  }

  lemma SentByFirst(s: SessionState, event: Event, events: seq<Event>)
    ensures SentBy(s, [event] + events) == |Apply(s, event).sent| + SentBy(Apply(s, event).session, events)
  {
    assert ([event] + events)[1..] == events;
  }
}

/** Two honest sessions that handshake over a network that loses, duplicates and reorders packets. */
module HandshakeAgreement {
  import opened Packets
  import opened SequenceNumbers
  import opened SlidingWindows
  import opened Runs
  import opened SessionSpec
  import opened HandshakeBudget

  /** A session with its history. */
  datatype Side = Side(session: SessionState, started: bool, everConnected: bool)

  datatype Pair = Pair(me: Side, peer: Side, mine: set<HandshakePacket>, his: set<HandshakePacket>) {
    function Swap(): Pair { Pair(peer, me, his, mine) }
  }

  datatype Action =
    | Start(id: Uint32, thisId: nat, number: SeqNum, mode: Mode)
    | Receive(packet: HandshakePacket)
    | TimerTick
    | Shut
    | Lose(remaining: set<HandshakePacket>)

  /** An action of the left side, or of the right one. */
  datatype Move = Left(action: Action) | Right(action: Action)

  predicate CanAct(p: Pair, action: Action) {
    match action
    case Start(id, _, _, _) => !p.me.started && id != 0
    case Receive(packet) => packet in p.his
    case TimerTick => p.me.started
    case Shut => true
    case Lose(remaining) => remaining <= p.mine
  }

  function Did(p: Pair, o: Outcome): Pair {
    p.(me := p.me.(session := o.session, everConnected := p.me.everConnected || o.session.state == Connected),
       mine := p.mine + set q | q in o.sent)
  }

  /** The socket closes a session that has connected only to drop. */
  function DroppedIf(p: Pair, before: SessionState): Pair {
    if Drops(before, p.me.session) then p.(me := p.me.(session := p.me.session.(state := Closed))) else p
  }

  function Act(p: Pair, action: Action): Pair {
    match action
    case Start(id, thisId, number, mode) =>
      Did(p.(me := p.me.(started := true)), Open(p.me.session.(peerSocket := 0), id, thisId, number, mode))
    case Receive(packet) => DroppedIf(Did(p, HandleHandshake(p.me.session, packet)), p.me.session)
    case TimerTick => Did(p, HandleTick(p.me.session))
    case Shut => Did(p, Outcome(p.me.session.(state := Closed), []))
    case Lose(remaining) => p.(mine := remaining)
  }

  function Step(p: Pair, move: Move): Option<Pair> {
    match move
    case Left(action) => if CanAct(p, action) then Some(Act(p, action)) else None
    case Right(action) => if CanAct(p.Swap(), action) then Some(Act(p.Swap(), action).Swap()) else None
  }

  ghost predicate CanPlay(p: Pair, moves: seq<Move>) {
    Run(Step, p, moves).Some?
  }

  ghost function Play(p: Pair, moves: seq<Move>): Pair
    requires CanPlay(p, moves)
  {
    Run(Step, p, moves).value
  }

  predicate FreshSide(s: Side) {
    && !s.started && !s.everConnected
    && s.session.state == Closed && s.session.estimate == Closed && s.session.hisCookie == 0
  }

  predicate Init(p: Pair) {
    FreshSide(p.me) && FreshSide(p.peer) && p.mine == {} && p.his == {}
  }

  /** What a packet sent by a side says about that side. */
  predicate Honest(q: HandshakePacket, s: Side) {
    && s.started && q.synCookie == COOKIE && q.nodeId == s.session.thisId && q.socketId == s.session.id
    && (q.IsSecondStage() ==>
          && q.initialSequenceNumber == s.session.sendingNumber && s.session.hisCookie != 0
          && q.endpointValid && q.hasPublicKey && q.reason == Normal && q.connectionType == CONNECTION_TYPE)
    && (q.IsConnected() ==> s.everConnected)
  }

  ghost predicate AllHonest(packets: set<HandshakePacket>, s: Side) {
    forall q :: q in packets ==> Honest(q, s)
  }

  /** What a side knows about itself. */
  predicate SelfValid(s: Side) {
    && (!s.started ==> FreshSide(s))
    && (s.started ==> s.session.myCookie == COOKIE && s.session.estimate != Closed && EstimateValid(s.session))
    && (s.started ==> s.session.sendingNumber <= MAX_SEQUENCE_NUMBER && s.session.id != 0)
    && (s.session.hisCookie == 0 || s.session.hisCookie == COOKIE)
    && (s.session.state == Handshaking ==> s.session.hisCookie != 0)
    && (s.session.state == Probing ==> s.session.hisCookie == 0)
    && (s.session.state == Connected ==> s.everConnected && s.session.mode != BootstrapAndDrop)
    && (s.session.estimate == Handshaking || s.session.estimate == Connected ==> s.everConnected)
    && (s.everConnected ==> s.started && s.session.hisCookie != 0 && s.session.estimate != Probing)
  }

  /** What a side knows about its peer. */
  predicate PeerValid(s: Side, peer: Side) {
    && (s.session.hisCookie != 0 ==> peer.started && s.session.peerId == peer.session.thisId != 0)
    && (s.started && s.session.peerSocket != 0 ==> peer.started && s.session.peerSocket == peer.session.id)
    && (s.session.hisCookie != 0 ==> s.session.peerSocket != 0)
    && (s.everConnected ==> peer.session.hisCookie != 0 && s.session.receivingNumber == peer.session.sendingNumber)
    && (s.everConnected ==> s.session.peerConnectionType == CONNECTION_TYPE)
    && (s.session.estimate == Connected ==> peer.everConnected)
  }

  ghost predicate Inv(p: Pair) {
    && SelfValid(p.me) && SelfValid(p.peer)
    && PeerValid(p.me, p.peer) && PeerValid(p.peer, p.me)
    && AllHonest(p.mine, p.me) && AllHonest(p.his, p.peer)
  }

  /** A side's own history only grows. */
  predicate Grows(s: Side, s': Side) {
    && (s.started ==>
          && s'.started && s'.session.sendingNumber == s.session.sendingNumber
          && s'.session.thisId == s.session.thisId && s'.session.id == s.session.id)
    && (s.everConnected ==> s'.everConnected && s'.session.receivingNumber == s.session.receivingNumber)
    && (s.session.hisCookie != 0 ==> s'.session.hisCookie != 0)
  }

  /** A side after it has taken in an honest packet. */
  lemma ReceiveOnSide(s: Side, peer: Side, packet: HandshakePacket, o: Outcome, s': Side)
    requires SelfValid(s) && SelfValid(peer) && PeerValid(s, peer) && Honest(packet, peer)
    requires o == HandleHandshake(s.session, packet)
    requires s'.everConnected == (s.everConnected || o.session.state == Connected) && s'.started == s.started
    requires s'.session == if Drops(s.session, o.session) then o.session.(state := Closed) else o.session
    ensures SelfValid(s') && PeerValid(s', peer) && Grows(s, s')
    ensures forall q :: q in o.sent ==> Honest(q, s')
  {
  }

  /** What an action does to the side that acts; the packets that it sends are honest. */
  lemma ActOnSide(p: Pair, action: Action)
    requires SelfValid(p.me) && SelfValid(p.peer) && PeerValid(p.me, p.peer) && AllHonest(p.his, p.peer) && CanAct(p, action)
    ensures var p' := Act(p, action);
      && SelfValid(p'.me) && PeerValid(p'.me, p.peer) && Grows(p.me, p'.me)
      && p'.peer == p.peer && p'.his == p.his
      && (forall q :: q in p'.mine && q !in p.mine ==> Honest(q, p'.me))
  {
    match action
    case Receive(packet) =>
      ReceiveOnSide(p.me, p.peer, packet, HandleHandshake(p.me.session, packet), Act(p, action).me);
    case _ =>
  }

  lemma HonestGrows(packets: set<HandshakePacket>, s: Side, s': Side)
    requires AllHonest(packets, s) && Grows(s, s')
    ensures AllHonest(packets, s')
  {
    forall q | q in packets ensures Honest(q, s') {
      assert Honest(q, s);
    }
  }

  lemma ActKeepsInv(p: Pair, action: Action)
    requires Inv(p) && CanAct(p, action)
    ensures Inv(Act(p, action)) && Grows(p.me, Act(p, action).me) && Act(p, action).peer == p.peer
  {
    ActOnSide(p, action);
    HonestGrows(p.mine, p.me, Act(p, action).me);
  }

  lemma MoveKeepsInv(p: Pair, move: Move)
    requires Inv(p) && Step(p, move).Some?
    ensures var p' := Step(p, move).value;
      Inv(p') && Grows(p.me, p'.me) && Grows(p.peer, p'.peer)
  {
    match move
    case Left(action) => ActKeepsInv(p, action);
    case Right(action) => ActKeepsInv(p.Swap(), action);
  }

  lemma {:induction false} PlayKeepsInv(p: Pair, moves: seq<Move>)
    requires Inv(p) && CanPlay(p, moves)
    ensures Inv(Play(p, moves)) && Grows(p.me, Play(p, moves).me) && Grows(p.peer, Play(p, moves).peer)
    decreases |moves|
  {
    if moves != [] {
      MoveKeepsInv(p, moves[0]);
      PlayKeepsInv(Step(p, moves[0]).value, moves[1..]);
    }
  }

  /** What a connected session knows of its peer: its first data number, its socket and its type of
      connection. The peer has recorded its cookie. */
  predicate Acquainted(s: SessionState, peer: SessionState) {
    && peer.hisCookie == s.myCookie && s.receivingNumber == peer.sendingNumber
    && s.peerSocket == peer.id != 0 && s.peerConnectionType == 0x0fff_ffff
  }

  /** In every run: a connected session has its cookie recorded by the peer and knows the peer's first
      data number and socket, and a session that takes its peer for connected is right. */
  lemma Agreement(start: Pair, moves: seq<Move>)
    requires Init(start) && CanPlay(start, moves)
    ensures var p := Play(start, moves);
      && (p.me.session.state == Connected ==> Acquainted(p.me.session, p.peer.session))
      && (p.peer.session.state == Connected ==> Acquainted(p.peer.session, p.me.session))
      && (p.me.session.estimate == Connected ==> p.peer.everConnected)
      && (p.peer.session.estimate == Connected ==> p.me.everConnected)
  {
    PlayKeepsInv(start, moves);
  }

  /** Once a session has connected, its receiving number never changes, whatever happens afterwards. */
  lemma ReceivingNumberIsFinal(start: Pair, moves: seq<Move>, more: seq<Move>)
    requires Init(start) && CanPlay(start, moves) && CanPlay(Play(start, moves), more)
    requires Play(start, moves).me.session.state == Connected
    ensures Play(Play(start, moves), more).me.session.receivingNumber == Play(start, moves).me.session.receivingNumber
  {
    PlayKeepsInv(start, moves);
    PlayKeepsInv(Play(start, moves), more);
  }

  // ---- Half-open pairs ----

  /** One side is connected and the other is open but not connected. */
  predicate HalfOpen(p: Pair) {
    p.me.session.state == Connected && p.peer.session.state != Connected && p.peer.session.state != Closed
  }

  predicate BothConnected(p: Pair) {
    p.me.session.state == Connected && p.peer.session.state == Connected
  }

  ghost predicate SecondStageInFlight(packets: set<HandshakePacket>) {
    exists q :: q in packets && q.IsSecondStage()
  }

  /** The other side has opened to stay and has retries left, and so has the connected one unless a second
      stage packet of its is still on the way. */
  ghost predicate CanComplete(p: Pair) {
    && p.peer.session.mode != BootstrapAndDrop && p.peer.session.retries > 0
    && (p.me.session.retries > 0 || SecondStageInFlight(p.mine))
  }

  /** A pair whose right side will never be connected. */
  ghost predicate Dead(p: Pair) {
    var s := p.peer.session;
    && p.me.started && p.peer.started
    && (s.state == Closed || (s.state == Handshaking && s.hisCookie != 0 && s.estimate == Probing))
    && (s.state == Closed || s.retries == 0 || s.mode == BootstrapAndDrop || OutOfReach(p.me.session, p.mine))
  }

  /** A session that has sent its last packet, with nothing in flight that could connect its peer. */
  ghost predicate OutOfReach(s: SessionState, packets: set<HandshakePacket>) {
    && s.retries == 0 && !SecondStageInFlight(packets)
    && (s.state == Connected || s.state == Closed) && (s.estimate == Handshaking || s.estimate == Connected)
  }

  lemma OutOfReachStays(p: Pair, action: Action)
    requires p.me.started && OutOfReach(p.me.session, p.mine) && CanAct(p, action)
    ensures OutOfReach(Act(p, action).me.session, Act(p, action).mine)
  {
    var p' := Act(p, action);
    assert p'.mine <= p.mine;
  }

  lemma DeadOnTheLeft(p: Pair, action: Action)
    requires Dead(p) && CanAct(p, action)
    ensures Dead(Act(p, action))
  {
    if OutOfReach(p.me.session, p.mine) {
      OutOfReachStays(p, action);
    }
  }

  lemma DeadOnTheRight(p: Pair, action: Action)
    requires Dead(p) && CanAct(p.Swap(), action)
    ensures Dead(Act(p.Swap(), action).Swap())
  {
    if action.Receive? && OutOfReach(p.me.session, p.mine) {
      assert !action.packet.IsSecondStage();
    }
  }

  lemma {:induction false} DeadForever(p: Pair, moves: seq<Move>)
    requires Dead(p) && CanPlay(p, moves)
    ensures Dead(Play(p, moves))
    decreases |moves|
  {
    if moves != [] {
      match moves[0] {
        case Left(action) => DeadOnTheLeft(p, action);
        case Right(action) => DeadOnTheRight(p, action);
      }
      DeadForever(Step(p, moves[0]).value, moves[1..]);
    }
  }

  lemma SecondStageConnects(p: Pair, q: HandshakePacket)
    requires Inv(p) && HalfOpen(p) && p.peer.session.retries > 0 && p.peer.session.mode != BootstrapAndDrop
    requires q in p.mine && q.IsSecondStage()
    ensures Step(p, Right(Receive(q))).Some? && BothConnected(Step(p, Right(Receive(q))).value)
  {
    assert Honest(q, p.me);
  }

  /** A tick of the connected side resends the second stage packet. */
  lemma TickResends(p: Pair)
    requires Inv(p) && HalfOpen(p) && p.me.session.retries > 0
    ensures Step(p, Left(TimerTick)).Some?
    ensures var p' := Step(p, Left(TimerTick)).value;
      HalfOpen(p') && p'.peer == p.peer && SecondStageInFlight(p'.mine)
  {
    var q := SendCookie(p.me.session).sent[0];
    assert q in Act(p, TimerTick).mine && q.IsSecondStage();
  }

  lemma HalfOpenCompletes(p: Pair) returns (moves: seq<Move>)
    requires Inv(p) && HalfOpen(p) && CanComplete(p)
    ensures CanPlay(p, moves) && BothConnected(Play(p, moves))
  {
    if SecondStageInFlight(p.mine) {
      var q :| q in p.mine && q.IsSecondStage();
      SecondStageConnects(p, q);
      RunOne(Step, p, Right(Receive(q)));
      moves := [Right(Receive(q))];
    } else {
      var tick := Left(TimerTick);
      TickResends(p);
      MoveKeepsInv(p, tick);
      var p' := Step(p, tick).value;
      var q :| q in p'.mine && q.IsSecondStage();
      SecondStageConnects(p', q);
      RunOne(Step, p', Right(Receive(q)));
      RunFirst(Step, p, tick, [Right(Receive(q))]);
      moves := [tick] + [Right(Receive(q))];
    }
  }

  /** In every run, a half-open pair can still end up with both sides connected exactly when the other side
      has opened to stay and has retries left, and the connected one can still reach it. */
  lemma HalfOpenCanComplete(start: Pair, moves: seq<Move>)
    requires Init(start) && CanPlay(start, moves) && HalfOpen(Play(start, moves))
    ensures var p := Play(start, moves);
      CanComplete(p) <==> exists more :: CanPlay(p, more) && BothConnected(Play(p, more))
  {
    PlayKeepsInv(start, moves);
    var p := Play(start, moves);
    if CanComplete(p) {
      var more := HalfOpenCompletes(p);
    } else {
      forall more | CanPlay(p, more) ensures !BothConnected(Play(p, more)) {
        DeadForever(p, more);
      }
    }
  }

  // ---- Half-open pairs that cannot complete ----

  /** A side that does not know its peer's id yet. */
  predicate Unacquainted(s: Side) { s.session.peerId == 0 }

  function InitialFrom(p: Pair): HandshakePacket { HandshakePacket(1, 0, COOKIE, p.me.session.mode, p.me.session.thisId, false, true, p.me.session.id) }

  function SecondStageFrom(p: Pair): HandshakePacket {
    HandshakePacket(CONNECTION_TYPE, p.me.session.sendingNumber, COOKIE, Normal, p.me.session.thisId, true, true, p.me.session.id)
  }

  /** Left is connected and still tells its peer so, right is handshaking. */
  predicate Halfway(p: Pair) {
    && HalfOpen(p) && p.me.started && p.peer.started && p.me.session.estimate == Handshaking
    && p.peer.session.state == Handshaking && p.peer.session.estimate == Probing
  }

  lemma BothStart(start: Pair, number: SeqNum, mode: Mode)
    requires Init(start) && Unacquainted(start.me) && Unacquainted(start.peer)
    ensures var moves := [Left(Start(1, 1, number, Normal))] + [Right(Start(2, 2, number, mode))];
      && CanPlay(start, moves)
      && var p := Play(start, moves);
      && InitialFrom(p) in p.mine && InitialFrom(p.Swap()) in p.his
      && p.me.session == Opened(start.me.session.(peerSocket := 0), 1, 1, number, Normal).(retries := 39) && p.me.started
      && p.peer.session == Opened(start.peer.session.(peerSocket := 0), 2, 2, number, mode).(retries := 39) && p.peer.started
  {
    var first, second := Left(Start(1, 1, number, Normal)), Right(Start(2, 2, number, mode));
    RunFirst(Step, start, first, [second]);
    RunOne(Step, Step(start, first).value, second);
  }

  /** A session that has been opened and has sent its first packet. */
  predicate JustOpened(s: SessionState) {
    && s.state == Probing && s.estimate == Probing && s.hisCookie == 0 && s.myCookie == COOKIE
    && s.retries == 39 && s.peerId == 0 && s.thisId != 0
  }

  /** A session that has answered the initial packet and waits for a second stage packet. */
  predicate Answered(s: SessionState) {
    s.state == Handshaking && s.estimate == Probing && s.hisCookie == COOKIE && s.myCookie == COOKIE && s.retries == 38
  }

  /** The left side receives the right one's initial packet. */
  lemma InitialIsAnswered(p: Pair)
    requires InitialFrom(p.Swap()) in p.his && JustOpened(p.me.session) && p.peer.session.thisId != 0
    ensures var p' := Act(p, Receive(InitialFrom(p.Swap())));
      && Answered(p'.me.session) && SecondStageFrom(p') in p'.mine && p'.me.started == p.me.started
      && p'.me.session.mode == p.me.session.mode && p'.me.session.peerId == p.peer.session.thisId
      && p'.peer == p.peer && p'.his == p.his && p.mine <= p'.mine
  {
    assert SecondStageFrom(Act(p, Receive(InitialFrom(p.Swap())))) in Act(p, Receive(InitialFrom(p.Swap()))).mine;
  }

  /** The left side receives the right one's second stage packet. */
  lemma SecondStageIsTaken(p: Pair)
    requires SecondStageFrom(p.Swap()) in p.his && Answered(p.me.session) && Answered(p.peer.session) && p.me.started && p.peer.started
    requires p.me.session.mode == Normal && p.me.session.peerId == p.peer.session.thisId != 0
    ensures var p' := Act(p, Receive(SecondStageFrom(p.Swap())));
      Halfway(p') && p'.me.session.retries == 36 && p'.peer == p.peer
  {
  }

  /** Both receive each other's initial packet, and the left side the right one's second stage packet. */
  lemma LeftConnects(p: Pair) returns (moves: seq<Move>)
    requires InitialFrom(p) in p.mine && InitialFrom(p.Swap()) in p.his && p.me.started && p.peer.started
    requires JustOpened(p.me.session) && JustOpened(p.peer.session) && p.me.session.mode == Normal
    ensures CanPlay(p, moves) && Halfway(Play(p, moves)) && Play(p, moves).peer.session.mode == p.peer.session.mode
    ensures Play(p, moves).me.session.retries == 36 && Play(p, moves).peer.session.retries == 38
  {
    var a := Right(Receive(InitialFrom(p)));
    InitialIsAnswered(p.Swap());
    var p1 := Step(p, a).value;
    var b := Left(Receive(InitialFrom(p1.Swap())));
    InitialIsAnswered(p1);
    var p2 := Step(p1, b).value;
    var c := Left(Receive(SecondStageFrom(p2.Swap())));
    SecondStageIsTaken(p2);
    RunOne(Step, p2, c);
    RunFirst(Step, p1, b, [c]);
    RunFirst(Step, p, a, [b] + [c]);
    moves := [a] + ([b] + [c]);
  }

  lemma HalfwayIsReached(start: Pair, number: SeqNum, mode: Mode) returns (moves: seq<Move>)
    requires Init(start) && Unacquainted(start.me) && Unacquainted(start.peer)
    ensures CanPlay(start, moves) && Halfway(Play(start, moves)) && Play(start, moves).peer.session.mode == mode
    ensures Play(start, moves).me.session.retries == 36 && Play(start, moves).peer.session.retries == 38
  {
    var opening := [Left(Start(1, 1, number, Normal))] + [Right(Start(2, 2, number, mode))];
    BothStart(start, number, mode);
    var more := LeftConnects(Play(start, opening));
    RunAppend(Step, start, opening, more);
    moves := opening + more;
  }

  /** A side that sends two packets at every tick has used up 2n retries after n ticks. */
  lemma {:induction false} TicksUseUp(p: Pair, n: nat, tick: Move) returns (moves: seq<Move>)
    requires Halfway(p) && (tick == Left(TimerTick) || tick == Right(TimerTick))
    requires (if tick.Left? then p.me else p.peer).session.retries == 2 * n
    ensures CanPlay(p, moves) && Halfway(Play(p, moves))
    ensures var p' := Play(p, moves);
      if tick.Left? then p'.me.session.retries == 0 && p'.peer == p.peer
      else p'.peer.session.retries == 0 && p'.me == p.me
    decreases n
  {
    if n == 0 {
      moves := [];
    } else {
      var p1 := Step(p, tick).value;
      var more := TicksUseUp(p1, n - 1, tick);
      RunFirst(Step, p, tick, more);
      moves := [tick] + more;
    }
  }

  /** A half-open pair beyond rescue can be reached: the connected side spends its retries on ticks while
      everything that it sends is lost. */
  lemma ConnectedSideCanRunOut(start: Pair, number: SeqNum) returns (moves: seq<Move>)
    requires Init(start) && Unacquainted(start.me) && Unacquainted(start.peer)
    ensures CanPlay(start, moves)
    ensures var p := Play(start, moves);
      HalfOpen(p) && !CanComplete(p) && p.peer.session.retries > 0 && p.peer.session.mode != BootstrapAndDrop
  {
    var opening := HalfwayIsReached(start, number, Normal);
    var p := Play(start, opening);
    var ticks := TicksUseUp(p, 18, Left(TimerTick));
    var lose := Left(Lose({}));
    RunOne(Step, Play(p, ticks), lose);
    RunAppend(Step, p, ticks, [lose]);
    RunAppend(Step, start, opening, ticks + [lose]);
    moves := opening + (ticks + [lose]);
  }

  /** So can one in which the other side has spent its retries and the connected one has not. */
  lemma OtherSideCanRunOut(start: Pair, number: SeqNum) returns (moves: seq<Move>)
    requires Init(start) && Unacquainted(start.me) && Unacquainted(start.peer)
    ensures CanPlay(start, moves)
    ensures var p := Play(start, moves);
      HalfOpen(p) && !CanComplete(p) && p.me.session.retries > 0
  {
    var opening := HalfwayIsReached(start, number, Normal);
    var p := Play(start, opening);
    var ticks := TicksUseUp(p, 19, Right(TimerTick));
    RunAppend(Step, start, opening, ticks);
    moves := opening + ticks;
  }

  /** And one in which both have retries left, but the other side has opened only to drop. */
  lemma OtherSideCanBeDropping(start: Pair, number: SeqNum) returns (moves: seq<Move>)
    requires Init(start) && Unacquainted(start.me) && Unacquainted(start.peer)
    ensures CanPlay(start, moves)
    ensures var p := Play(start, moves);
      HalfOpen(p) && !CanComplete(p) && p.me.session.retries > 0 && p.peer.session.retries > 0
  {
    moves := HalfwayIsReached(start, number, BootstrapAndDrop);
  }
}
