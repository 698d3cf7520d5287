/** Reading a stream bit by bit takes in what one large read takes in. */
module Reads {
  import opened SlidingWindows
  import opened Packets
  import opened CongestionControls
  import opened ReceiverSpec
  import opened SendingEnds
  import opened ReceivingEnds

  /** The window after everything that can be read has been read. */
  function ReadUp(w: Window<Unread>): Window<Unread>
    decreases |w.items|
  {
    if w.items == [] || w.items[0].lost then w else ReadUp(w.RemoveFront(1))
  }

  lemma {:induction false} LargeReadReadsUp(w: Window<Unread>, out: seq<Byte>, size: nat)
    requires |out| + |Readable(w.items)| < size
    ensures Read(w, out, size) == ReadResult(ReadUp(w), out + Readable(w.items))
    decreases |w.items|
  {
    if w.items == [] || w.items[0].lost {
      assert out + [] == out;
    } else {
      ReadWhole(w, out, size);
      LargeReadReadsUp(w.RemoveFront(1), out + Rest(w.items[0]), size);
      Associate(out, Rest(w.items[0]), Readable(w.items[1..]));
    }
  }

  /** Whatever a read leaves behind is read up to the same window. */
  lemma {:induction false} ReadingOnReadsUp(w: Window<Unread>, out: seq<Byte>, size: nat)
    requires |out| <= size
    ensures ReadUp(Read(w, out, size).window) == ReadUp(w)
    decreases |w.items|
  {
    if w.items == [] || |out| >= size || w.items[0].lost {
      assert Read(w, out, size) == ReadResult(w, out);
    } else if |out| + |Rest(w.items[0])| <= size {
      ReadWhole(w, out, size);
      ReadingOnReadsUp(w.RemoveFront(1), out + Rest(w.items[0]), size);
    } else {
      ReadPartIs(w, out, size);
      assert Read(w, out, size).window.RemoveFront(1) == w.RemoveFront(1);
    }
  }

  /** The receiving end after everything that can be read has been read. */
  function AllRead(e: ReceivingEnd): ReceivingEnd { ReadOut(e, |Readable(e.state.unread.items)| + 1) }

  lemma LargeReadIsAllRead(e: ReceivingEnd, size: nat)
    requires |Readable(e.state.unread.items)| < size
    ensures ReadOut(e, size) == AllRead(e)
  {
    LargeReadReadsUp(e.state.unread, [], size);
    LargeReadReadsUp(e.state.unread, [], |Readable(e.state.unread.items)| + 1);
  }

  lemma AllReadIs(e: ReceivingEnd)
    ensures AllRead(e) == e.(
      state := e.state.(unread := ReadUp(e.state.unread)),
      consumed := e.consumed + (|e.state.unread.items| - |AllRead(e).state.unread.items|),
      delivered := e.delivered + Readable(e.state.unread.items))
  {
    var w := e.state.unread;
    LargeReadReadsUp(w, [], |Readable(w.items)| + 1);
    assert [] + Readable(w.items) == Readable(w.items);
  }

  lemma ReadOutIs(e: ReceivingEnd, size: nat)
    ensures var e' := ReadOut(e, size); var w := e.state.unread;
      && e' == e.(state := e.state.(unread := Read(w, [], size).window), consumed := e'.consumed, delivered := e'.delivered)
      && e'.consumed == e.consumed + (|w.items| - |e'.state.unread.items|)
      && e'.delivered + Readable(e'.state.unread.items) == e.delivered + Readable(w.items)
      && ReadUp(e'.state.unread) == ReadUp(w)
  {
    var w := e.state.unread;
    var r := Read(w, [], size);
    ReadingOnReadsUp(w, [], size);
    ReadConserves(w, [], size);
    assert [] + Readable(w.items) == Readable(w.items);
    Associate(e.delivered, r.data, Readable(r.window.items));
  }

  /** A read of any size, and then the rest. */
  lemma ReadThenAll(e: ReceivingEnd, size: nat)
    ensures AllRead(ReadOut(e, size)) == AllRead(e)
  {
    AllReadIs(e);
    ReadOutIs(e, size);
    AllReadIs(ReadOut(e, size));
  }

  lemma NothingReadable(e: ReceivingEnd, log: seq<DataPacket>)
    requires Readable(e.state.unread.items) == [] && Slots(e.state.unread.items, log, e.stored, e.consumed)
    ensures AllRead(e) == e
  {
    var items := e.state.unread.items;
    if items != [] {
      assert Slot(items[0], log[e.consumed + 0], (e.consumed + 0) in e.stored);
    }
    assert e.delivered + [] == e.delivered;
  }

  /** A read delivers as much as fits of what can be read. */
  lemma ReadTakes(e: ReceivingEnd, size: nat)
    ensures var e' := ReadOut(e, size);
      && e.delivered <= e'.delivered
      && |e'.delivered| - |e.delivered| == Min(size, |Readable(e.state.unread.items)|)
      && |Readable(e'.state.unread.items)| == |Readable(e.state.unread.items)| - Min(size, |Readable(e.state.unread.items)|)
  {
    ReadConserves(e.state.unread, [], size);
    assert [] + Readable(e.state.unread.items) == Readable(e.state.unread.items);
  }
}

/** Messages between two connections: the one that sends them, the stream that carries them, and the one
    that reads them back. */
module Lines {
  import opened SequenceNumbers
  import opened SlidingWindows
  import opened Packets
  import opened Runs
  import opened CongestionControls
  import opened SenderSpec
  import opened ReceiverSpec
  import opened SendingEnds
  import opened ReceivingEnds
  import opened Streams
  import StreamTheorems
  import opened CodecSpec
  import opened Framing
  import opened Outboxes
  import opened Reads

  /** The sending half of a connection at one end of a stream and the reading half at the other, with what
      its outstanding read has taken in so far. */
  datatype Line = Line(outbox: Outbox, stream: Stream, reader: Reader, pending: seq<Byte>) {
    /** How much more the outstanding read can take in. */
    function Room(): nat { if |pending| < reader.AtMost() then reader.AtMost() - |pending| else 0 }

    /** What the reader's completed reads have taken in. */
    function Fed(): nat { if |pending| <= |stream.receiver.delivered| then |stream.receiver.delivered| - |pending| else 0 }
  }

  /** What can happen: a message is handed in, a scheduled one begins, the socket reports that it has taken
      in the whole frame, the socket copies bytes into the outstanding read, it reports that the read has as
      much as it needs, or something else happens to the stream. */
  datatype Move =
    | Send(message: Message, failures: nat)
    | RunPosted(failures: nat)
    | WriteDone
    | ReadSome
    | ReadDone
    | Happens(event: Event)

  /** A message begins: its frame goes to the socket. */
  ghost function WriteFrame(l: Line, outbox: Outbox, m: Message, failures: nat): Option<Line> {
    match StreamTheorems.Step(l.stream, Write(Frame(m), failures))
    case None => None
    case Some(s) => Some(l.(outbox := outbox, stream := s))
  }

  /** The socket fills the room that is left in the outstanding read. */
  ghost function CopyBytes(l: Line): Option<Line> {
    match StreamTheorems.Step(l.stream, Read(l.Room()))
    case None => None
    case Some(s) =>
      var from := |l.stream.receiver.delivered|;
      if l.stream.receiver.delivered <= s.receiver.delivered
      then Some(l.(stream := s, pending := l.pending + s.receiver.delivered[from..])) else None
  }

  /** The completion handler runs, and starts the next read. */
  ghost function ReadCompletes(l: Line): Line
    requires l.reader.Valid() && l.reader.AtLeast() <= |l.pending| <= l.reader.AtMost() && StatesValid(l.stream)
  {
    l.(reader := Feed(l.reader, l.pending, l.stream.receiver.state.control.BestReadBufferSize()), pending := [])
  }

  ghost function Step(l: Line, move: Move): Option<Line> {
    match move
    case Send(m, failures) =>
      if !Sendable(m) then None
      else if l.outbox.sending then Some(l.(outbox := Queued(l.outbox, m)))
      else WriteFrame(l, Queued(l.outbox, m), m, failures)
    case RunPosted(failures) =>
      if l.outbox.posted.None? then None
      else WriteFrame(l, PostedRuns(l.outbox), l.outbox.posted.value, failures)
    case WriteDone =>
      if l.outbox.writing && l.stream.sender.waiting == [] then Some(l.(outbox := Finished(l.outbox))) else None
    case ReadSome => if l.reader.phase != Stopped && l.Room() > 0 then CopyBytes(l) else None
    case ReadDone =>
      if l.reader.Valid() && l.reader.phase != Stopped && StatesValid(l.stream) &&
         l.reader.AtLeast() <= |l.pending| <= l.reader.AtMost()
      then Some(ReadCompletes(l)) else None
    case Happens(event) =>
      if event.Write? || event.Read? then None
      else match StreamTheorems.Step(l.stream, event)
        case None => None
        case Some(s) => Some(l.(stream := s))
  }

  ghost predicate CanPlay(l: Line, moves: seq<Move>) { Run(Step, l, moves).Some? }

  ghost function Play(l: Line, moves: seq<Move>): Line
    requires CanPlay(l, moves)
  {
    Run(Step, l, moves).value
  }

  ghost predicate LineInit(l: Line) {
    l.outbox == EMPTY_OUTBOX && Init(l.stream) && l.reader == INITIAL_READER && l.pending == []
  }

  /** What has been written are the frames of the messages that have begun, and the socket is idle unless
      the connection waits for a write. */
  ghost predicate WritingInv(outbox: Outbox, s: Stream) {
    && StreamTheorems.Reachable(s) && outbox.Valid()
    && s.sender.submitted == AllFrames(outbox.started, |outbox.started|)
    && (outbox.writing || s.sender.waiting == [])
  }

  /** The reader is in step with the frames of all messages, but for what its outstanding read holds. */
  ghost predicate ReadingInv(l: Line) {
    var delivered := l.stream.receiver.delivered;
    && |l.pending| <= |delivered| && l.pending == delivered[l.Fed()..] && |l.pending| <= l.reader.AtMost()
    && AllSendable(l.outbox.submitted) && l.Fed() <= |Frames(l.outbox.submitted, 0)|
    && InStep(l.reader, l.outbox.submitted, Frames(l.outbox.submitted, 0)[l.Fed()..])
  }

  ghost predicate LineInv(l: Line) { WritingInv(l.outbox, l.stream) && ReadingInv(l) }

  lemma StreamInitReachable(s: Stream)
    requires Init(s)
    ensures StreamTheorems.Reachable(s)
  {
    assert StreamTheorems.CanPlay(s, []) && StreamTheorems.Play(s, []) == s;
  }

  lemma InitialReaderInStep()
    ensures AllSendable([]) && Frames([], 0) == [] && InStep(INITIAL_READER, [], [])
  {
  }

  lemma InitialReadingInv(l: Line)
    requires l.outbox == EMPTY_OUTBOX && l.reader == INITIAL_READER && l.pending == [] && l.stream.receiver.delivered == []
    ensures ReadingInv(l)
  {
    InitialReaderInStep();
  }

  lemma InitialWritingInv(s: Stream)
    requires StreamTheorems.Reachable(s) && s.sender.submitted == [] && s.sender.waiting == []
    ensures WritingInv(EMPTY_OUTBOX, s)
  {
  }

  /** Only a write adds to what has been submitted. */
  lemma OnlyWritesSubmit(s: Stream, event: Event)
    requires StreamTheorems.Step(s, event).Some?
    ensures Apply(s, event).sender.submitted == s.sender.submitted + if event.Write? then event.data else []
  {
    SubmittedBy(s.sender, event, s.now);
  }

  lemma SubmittedBy(e: SendingEnd, event: Event, now: int)
    requires e.state.Valid()
    ensures event.Write? ==> StartWrite(e, event.data, now, event.failures).end.submitted == e.submitted + event.data
    ensures event.ContinueWrite? ==> ProcessWrite(e, now, event.failures).end.submitted == e.submitted
    ensures event.Tick? ==> SendingEnds.HandleTick(e, now, event.failures, event.failures').end.submitted == e.submitted
    ensures event.DeliverAck? ==>
      SendingEnds.HandleAck(e, event.ack.packet, now, event.failures, event.failures').end.submitted == e.submitted
    ensures event.DeliverNegativeAck? ==>
      SendingEnds.HandleNegativeAck(e, event.negative, now, event.failures).end.submitted == e.submitted
  {
  }

  /** The socket never becomes busy without a write. */
  lemma OnlyWritesWait(s: Stream, event: Event)
    requires StreamTheorems.Step(s, event).Some? && !event.Write? && s.sender.waiting == []
    ensures Apply(s, event).sender.waiting == []
  {
  }

  /** An idle socket takes a write, and what it has submitted then ends with it. */
  lemma IdleTakesWrite(s: Stream, data: seq<Byte>, failures: nat)
    requires StreamTheorems.Reachable(s) && s.sender.waiting == [] && data != []
    ensures StreamTheorems.Step(s, Write(data, failures)).Some?
    ensures var s' := StreamTheorems.Step(s, Write(data, failures)).value;
      StreamTheorems.Reachable(s') && s'.sender.submitted == s.sender.submitted + data
  {
    StreamTheorems.ReachableInv(s);
    StreamTheorems.PlayOne(s, Write(data, failures));
    StreamTheorems.ReachableStep(s, Write(data, failures));
    OnlyWritesSubmit(s, Write(data, failures));
  }

  /** The bytes delivered are the beginning of the frames of the messages handed in. */
  lemma DeliveredAreFrames(outbox: Outbox, s: Stream)
    requires WritingInv(outbox, s)
    ensures AllSendable(outbox.submitted) && s.receiver.delivered <= Frames(outbox.submitted, 0)
  {
    StreamTheorems.DeliveredIsPrefix(s);
    assert outbox.started == outbox.submitted[..|outbox.started|];
    FramesOfPrefix(outbox.started, outbox.submitted);
    FramesBothWays(outbox.submitted, |outbox.submitted|);
    assert AllFrames(outbox.submitted, |outbox.submitted|) <= Frames(outbox.submitted, 0);
  }

  // ---- The writing side keeps the invariant ----

  lemma BeginKeeps(l: Line, o: Outbox, m: Message, failures: nat)
    requires WritingInv(l.outbox, l.stream) && l.stream.sender.waiting == [] && Sendable(m)
    requires o.Valid() && o.writing && o.started == l.outbox.started + [m]
    ensures WriteFrame(l, o, m, failures).Some?
    ensures var l' := WriteFrame(l, o, m, failures).value;
      && WritingInv(o, l'.stream) && l' == l.(outbox := o, stream := l'.stream)
      && l'.stream.receiver == l.stream.receiver
  {
    IdleTakesWrite(l.stream, Frame(m), failures);
    FramesAppend(l.outbox.started, m);
    assert |o.started| == |l.outbox.started| + 1;
    assert WritingInv(o, WriteFrame(l, o, m, failures).value.stream);
  }

  /** One more message makes the stream of frames longer and changes nothing for the reader. */
  lemma LongerReading(l: Line, l': Line, m: Message)
    requires ReadingInv(l) && Sendable(m) && l'.outbox.submitted == l.outbox.submitted + [m]
    requires l'.reader == l.reader && l'.pending == l.pending && l'.stream.receiver.delivered == l.stream.receiver.delivered
    ensures ReadingInv(l')
  {
    var messages, fed := l.outbox.submitted, l.Fed();
    FramesGrow(messages, m, 0);
    InStepGrows(l.reader, messages, Frames(messages, 0)[fed..], m);
    TailGrows(Frames(messages, 0), Frame(m), fed);
    assert l'.Fed() == fed;
  }

  lemma TailGrows(a: seq<Byte>, b: seq<Byte>, k: nat)
    requires k <= |a|
    ensures (a + b)[k..] == a[k..] + b
  {
  }

  /** A connection never finds the socket busy: a message can be handed in at any moment, and a scheduled
      one can begin. */
  lemma SendKeeps(l: Line, m: Message, failures: nat) returns (l': Line)
    requires LineInv(l) && Sendable(m)
    ensures Step(l, Send(m, failures)) == Some(l') && LineInv(l')
  {
    QueuedKeeps(l.outbox, m);
    if !l.outbox.sending {
      BeginKeeps(l, Queued(l.outbox, m), m, failures);
    }
    l' := Step(l, Send(m, failures)).value;
    LongerReading(l, l', m);
  }

  lemma RunPostedKeeps(l: Line, failures: nat) returns (l': Line)
    requires LineInv(l) && l.outbox.posted.Some?
    ensures Step(l, RunPosted(failures)) == Some(l') && LineInv(l') && l'.stream.receiver == l.stream.receiver
  {
    PostedRunsKeeps(l.outbox);
    BeginKeeps(l, PostedRuns(l.outbox), l.outbox.posted.value, failures);
    l' := Step(l, RunPosted(failures)).value;
  }

  lemma WriteDoneKeeps(l: Line)
    requires LineInv(l) && Step(l, WriteDone).Some?
    ensures LineInv(Step(l, WriteDone).value)
  {
    FinishedKeeps(l.outbox);
  }

  // ---- So does the reading side ----

  /** Only a read delivers bytes. */
  lemma OnlyReadsDeliver(s: Stream, event: Event)
    requires StreamTheorems.Step(s, event).Some? && !event.Read?
    ensures Apply(s, event).receiver.delivered == s.receiver.delivered
  {
    if event.DeliverData? {
      DataDeliversNothing(s.receiver, event.flight, s.now, event.statistics);
    }
  }

  lemma DataDeliversNothing(e: ReceivingEnd, f: DataFlight, now: int, statistics: LinkStatistics)
    requires e.state.Valid()
    ensures ReceivingEnds.HandleData(e, f, now, statistics).end.delivered == e.delivered
  {
  }

  lemma HappensKeeps(l: Line, event: Event)
    requires LineInv(l) && Step(l, Happens(event)).Some?
    ensures LineInv(Step(l, Happens(event)).value)
  {
    StreamTheorems.ReachableStep(l.stream, event);
    OnlyWritesSubmit(l.stream, event);
    OnlyReadsDeliver(l.stream, event);
    if !l.outbox.writing {
      OnlyWritesWait(l.stream, event);
    }
  }

  /** Copied bytes go behind the pending ones. */
  lemma CopiedInStep(l: Line, l': Line)
    requires ReadingInv(l) && l'.outbox == l.outbox && l'.reader == l.reader
    requires var d, d' := l.stream.receiver.delivered, l'.stream.receiver.delivered;
      d <= d' && l'.pending == l.pending + d'[|d|..] && |l'.pending| <= l.reader.AtMost()
    ensures ReadingInv(l')
  {
    var d, d' := l.stream.receiver.delivered, l'.stream.receiver.delivered;
    assert d' == d + d'[|d|..];
    assert l'.Fed() == l.Fed();
    assert d'[l.Fed()..] == d[l.Fed()..] + d'[|d|..];
  }

  lemma RoomIsRead(s: Stream, size: nat)
    requires StreamTheorems.Reachable(s)
    ensures var s' := s.(receiver := ReadOut(s.receiver, size));
      && StreamTheorems.Step(s, Read(size)) == Some(s') && StreamTheorems.Reachable(s')
      && s.receiver.delivered <= s'.receiver.delivered
      && |s'.receiver.delivered| <= |s.receiver.delivered| + size
  {
    StreamTheorems.ReachableInv(s);
    StreamTheorems.PlayOne(s, Read(size));
    StreamTheorems.ReachableStep(s, Read(size));
    ReadTakes(s.receiver, size);
  }

  lemma CopyKeeps(l: Line) returns (l': Line)
    requires LineInv(l) && l.Room() > 0
    ensures Step(l, ReadSome) == Some(l') && LineInv(l') && l'.outbox == l.outbox && l'.reader == l.reader
    ensures l'.stream == l.stream.(receiver := ReadOut(l.stream.receiver, l.Room()))
  {
    l' := CopyIs(l);
    CopiedInStep(l, l');
  }

  lemma CopyIs(l: Line) returns (l': Line)
    requires |l.pending| <= l.reader.AtMost() && l.reader.phase != Stopped && l.Room() > 0 && StreamTheorems.Reachable(l.stream)
    ensures Step(l, ReadSome) == Some(l') && l'.outbox == l.outbox && l'.reader == l.reader
    ensures l'.stream == l.stream.(receiver := ReadOut(l.stream.receiver, l.Room())) && StreamTheorems.Reachable(l'.stream)
    ensures var d, d' := l.stream.receiver.delivered, l'.stream.receiver.delivered;
      d <= d' && l'.pending == l.pending + d'[|d|..] && |l'.pending| <= l.reader.AtMost()
  {
    RoomIsRead(l.stream, l.Room());
    CopyTakes(l, l.stream.(receiver := ReadOut(l.stream.receiver, l.Room())));
    l' := Step(l, ReadSome).value;
  }

  lemma CopyTakes(l: Line, s: Stream)
    requires l.Room() > 0 && l.reader.phase != Stopped && StreamTheorems.Step(l.stream, Read(l.Room())) == Some(s)
    requires l.stream.receiver.delivered <= s.receiver.delivered
    ensures Step(l, ReadSome) ==
      Some(l.(stream := s, pending := l.pending + s.receiver.delivered[|l.stream.receiver.delivered|..]))
  {
  }

  /** What the outstanding read holds is what comes next in the stream of frames. */
  lemma PendingComesNext(l: Line)
    requires LineInv(l)
    ensures var rest := Frames(l.outbox.submitted, 0)[l.Fed()..];
      |l.pending| <= |rest| && rest[..|l.pending|] == l.pending
    ensures l.stream.receiver.delivered <= Frames(l.outbox.submitted, 0)
  {
    DeliveredAreFrames(l.outbox, l.stream);
  }

  lemma FedInStep(l: Line, best: nat)
    requires ReadingInv(l) && l.reader.AtLeast() <= |l.pending| && best > 0
    requires var rest := Frames(l.outbox.submitted, 0)[l.Fed()..]; |l.pending| <= |rest| && rest[..|l.pending|] == l.pending
    ensures ReadingInv(l.(reader := Feed(l.reader, l.pending, best), pending := []))
  {
    var frames, fed := Frames(l.outbox.submitted, 0), l.Fed();
    FeedKeepsStep(l.reader, l.outbox.submitted, frames[fed..], Piece(|l.pending|, best));
    assert frames[fed..][|l.pending|..] == frames[fed + |l.pending|..];
  }

  lemma ReachableValid(s: Stream)
    requires StreamTheorems.Reachable(s)
    ensures StatesValid(s)
  {
    StreamTheorems.ReachableInv(s);
  }

  lemma ReadDoneKeeps(l: Line) returns (l': Line)
    requires LineInv(l) && l.reader.AtLeast() <= |l.pending|
    ensures Step(l, ReadDone) == Some(l') && LineInv(l')
    ensures l'.outbox == l.outbox && l'.stream == l.stream && l'.pending == []
  {
    ReachableValid(l.stream);
    PendingComesNext(l);
    FedInStep(l, l.stream.receiver.state.control.BestReadBufferSize());
    l' := ReadCompletes(l);
  }

  lemma StepKeepsLine(l: Line, move: Move)
    requires LineInv(l) && Step(l, move).Some?
    ensures LineInv(Step(l, move).value)
  {
    match move
    case Send(m, failures) => var _ := SendKeeps(l, m, failures);
    case RunPosted(failures) => var _ := RunPostedKeeps(l, failures);
    case WriteDone => WriteDoneKeeps(l);
    case ReadSome => var _ := CopyKeeps(l);
    case ReadDone => var _ := ReadDoneKeeps(l);
    case Happens(event) => HappensKeeps(l, event);
  }

  lemma {:induction false} PlayKeepsLine(l: Line, moves: seq<Move>)
    requires LineInv(l) && CanPlay(l, moves)
    ensures LineInv(Play(l, moves))
    decreases |moves|
  {
    if moves != [] {
      StepKeepsLine(l, moves[0]);
      PlayKeepsLine(Step(l, moves[0]).value, moves[1..]);
    }
  }

  lemma PlayFromInit(start: Line, moves: seq<Move>)
    requires LineInit(start) && CanPlay(start, moves)
    ensures LineInv(Play(start, moves))
  {
    StreamInitReachable(start.stream);
    InitialWritingInv(start.stream);
    InitialReadingInv(start);
    PlayKeepsLine(start, moves);
  }

  /** In every run the messages handed up are the first of those handed in, whole and in order, and the
      reader never gives up. */
  lemma MessagesArriveInOrder(start: Line, moves: seq<Move>)
    requires LineInit(start) && CanPlay(start, moves)
    ensures var l := Play(start, moves); l.reader.messages <= l.outbox.submitted && l.reader.phase != Stopped
  {
    PlayFromInit(start, moves);
  }

  // ---- Every message can arrive ----

  lemma PlayOne(l: Line, move: Move)
    requires LineInv(l) && Step(l, move).Some?
    ensures CanPlay(l, [move]) && Play(l, [move]) == Step(l, move).value && LineInv(Play(l, [move]))
  {
    RunOne(Step, l, move);
    StepKeepsLine(l, move);
  }

  /** Read by read the connection takes in everything that can be read. */
  lemma {:induction false} LineReads(l: Line) returns (moves: seq<Move>)
    requires LineInv(l)
    ensures CanPlay(l, moves)
    ensures var l' := Play(l, moves);
      && LineInv(l') && l'.outbox == l.outbox && l'.stream == l.stream.(receiver := AllRead(l.stream.receiver))
      && |l'.pending| < l'.reader.AtLeast()
    decreases |Readable(l.stream.receiver.state.unread.items)|, |l.pending|
  {
    if l.reader.AtLeast() <= |l.pending| {
      var l1 := ReadDoneKeeps(l);
      var more := LineReads(l1);
      RunFirst(Step, l, ReadDone, more);
      moves := [ReadDone] + more;
    } else if Readable(l.stream.receiver.state.unread.items) == [] {
      StreamTheorems.ReachableInv(l.stream);
      NothingReadable(l.stream.receiver, l.stream.sender.log);
      moves := [];
    } else {
      var l1 := CopyKeeps(l);
      ReadTakes(l.stream.receiver, l.Room());
      ReadThenAll(l.stream.receiver, l.Room());
      var more := LineReads(l1);
      RunFirst(Step, l, ReadSome, more);
      moves := [ReadSome] + more;
    }
  }

  /** A way of going on with the stream is a way of going on with the line, whose reads take in what the
      stream's reads do. */
  lemma {:induction false} Lift(l: Line, events: seq<Event>) returns (moves: seq<Move>)
    requires LineInv(l) && StreamTheorems.CanGoOn(l.stream, events)
    ensures CanPlay(l, moves)
    ensures var l' := Play(l, moves);
      LineInv(l') && l'.outbox == l.outbox && l'.stream == StreamTheorems.GoneOn(l.stream, events)
    decreases |events|
  {
    if events == [] {
      moves := [];
    } else {
      var first := [Happens(events[0])];
      if events[0].Read? {
        LargeReadTakesAll(l.stream, events[0]);
        first := LineReads(l);
      } else {
        PlayOne(l, Happens(events[0]));
      }
      var l1 := Play(l, first);
      var more := Lift(l1, events[1..]);
      RunAppend(Step, l, first, more);
      moves := first + more;
    }
  }

  lemma LargeReadTakesAll(s: Stream, event: Event)
    requires StreamTheorems.CalmStep(s, event).Some? && event.Read?
    ensures StreamTheorems.CalmStep(s, event).value == s.(receiver := AllRead(s.receiver))
  {
    LargeReadIsAllRead(s.receiver, event.size);
  }

  /** Nothing stored waits to be confirmed. */
  ghost predicate Quiet(s: Stream) { s.receiver.stored - s.receiver.confirmed == {} }

  ghost predicate Fresh(l: Line) {
    StreamTheorems.Fresh(l.stream.receiver.stored - l.stream.receiver.confirmed, |l.stream.sender.log|)
  }

  /** Everything written so far arrives. */
  lemma LineDrains(l: Line, statistics: LinkStatistics) returns (moves: seq<Move>)
    requires LineInv(l) && Fresh(l)
    ensures CanPlay(l, moves)
    ensures var l' := Play(l, moves);
      && LineInv(l') && Quiet(l'.stream) && l'.outbox == l.outbox
      && l'.stream.sender.waiting == [] && l'.stream.receiver.delivered == l'.stream.sender.submitted
  {
    var events := StreamTheorems.EverythingCanArrive(l.stream, statistics);
    moves := Lift(l, events);
  }

  /** The scheduled message begins. */
  lemma PostedBegins(l: Line)
    requires LineInv(l) && l.outbox.posted.Some? && Quiet(l.stream)
    ensures CanPlay(l, [RunPosted(0)])
    ensures var l' := Play(l, [RunPosted(0)]);
      && LineInv(l') && Quiet(l'.stream)
      && l'.outbox.submitted == l.outbox.submitted && |l'.outbox.started| == |l.outbox.started| + 1
  {
    var _ := RunPostedKeeps(l, 0);
    PlayOne(l, RunPosted(0));
  }

  /** When the socket is idle, the next message begins. */
  lemma NextBegins(l: Line) returns (moves: seq<Move>)
    requires LineInv(l) && l.stream.sender.waiting == [] && l.outbox.started != l.outbox.submitted && Quiet(l.stream)
    ensures CanPlay(l, moves)
    ensures var l' := Play(l, moves);
      && LineInv(l') && Quiet(l'.stream)
      && l'.outbox.submitted == l.outbox.submitted && |l'.outbox.started| == |l.outbox.started| + 1
  {
    NotYetStarted(l.outbox);
    if l.outbox.posted.Some? {
      PostedBegins(l);
      moves := [RunPosted(0)];
    } else {
      PlayOne(l, WriteDone);
      PostedBegins(Play(l, [WriteDone]));
      RunAppend(Step, l, [WriteDone], [RunPosted(0)]);
      moves := [WriteDone] + [RunPosted(0)];
    }
  }

  /** One message after the other begins and arrives. */
  lemma {:induction false} LineFinishes(l: Line, statistics: LinkStatistics) returns (moves: seq<Move>)
    requires LineInv(l) && Fresh(l)
    ensures CanPlay(l, moves)
    ensures var l' := Play(l, moves);
      && LineInv(l') && l'.outbox.submitted == l'.outbox.started == l.outbox.submitted
      && l'.stream.receiver.delivered == l'.stream.sender.submitted
    decreases |l.outbox.submitted| - |l.outbox.started|
  {
    var drain := LineDrains(l, statistics);
    var l1 := Play(l, drain);
    if l1.outbox.started == l1.outbox.submitted {
      moves := drain;
    } else {
      NotYetStarted(l1.outbox);
      var begin := NextBegins(l1);
      var l2 := Play(l1, begin);
      var rest := LineFinishes(l2, statistics);
      RunAppend(Step, l1, begin, rest);
      RunAppend(Step, l, drain, begin + rest);
      moves := drain + (begin + rest);
    }
  }

  /** When all frames have been delivered and no read is complete, every message has been handed up. */
  lemma AllHandedUp(l: Line)
    requires LineInv(l) && l.outbox.started == l.outbox.submitted && l.stream.receiver.delivered == l.stream.sender.submitted
    requires |l.pending| < l.reader.AtLeast()
    ensures l.reader.messages == l.outbox.submitted
  {
    var messages, fed := l.outbox.submitted, l.Fed();
    FramesBothWays(messages, |messages|);
    assert Frames(messages, |messages|) == [];
    assert l.stream.receiver.delivered == Frames(messages, 0);
    if l.pending != [] {
      ReaderNeverStarves(l.reader, messages, l.pending);
    }
    InStepAtTheEnd(l.reader, messages);
  }

  /** Once everything has been delivered, the connection's own reads hand up the rest. */
  lemma LineReadsToTheEnd(l: Line) returns (moves: seq<Move>)
    requires LineInv(l) && l.outbox.started == l.outbox.submitted && l.stream.receiver.delivered == l.stream.sender.submitted
    ensures CanPlay(l, moves)
    ensures Play(l, moves).reader.messages == Play(l, moves).outbox.submitted == l.outbox.submitted
  {
    moves := LineReads(l);
    var l' := Play(l, moves);
    ReadTakes(l.stream.receiver, |Readable(l.stream.receiver.state.unread.items)| + 1);
    StreamTheorems.DeliveredIsPrefix(l'.stream);
    AllHandedUp(l');
  }

  /** Every message can still arrive: from the state that any run has reached some continuation, in which the
      connection makes its own reads, hands up every message that was ever handed in, provided that nothing
      that waits for an ack-of-ack is about to outlive the lifetime. */
  lemma EveryMessageCanArrive(start: Line, moves: seq<Move>, statistics: LinkStatistics) returns (more: seq<Move>)
    requires LineInit(start) && CanPlay(start, moves) && Fresh(Play(start, moves))
    ensures var l := Play(start, moves);
      CanPlay(l, more) && Play(l, more).reader.messages == Play(l, more).outbox.submitted == l.outbox.submitted
  {
    PlayFromInit(start, moves);
    var l := Play(start, moves);
    var finish := LineFinishes(l, statistics);
    var read := LineReadsToTheEnd(Play(l, finish));
    RunAppend(Step, l, finish, read);
    more := finish + read;
  }
}
