/** Messages are framed with a length prefix, written one at a time and in order, and
    read back from a byte stream that arrives in pieces of any size. */
module Framing {
  import opened Packets
  import opened CodecSpec
  import opened WireLayouts

  const MAX_MESSAGE_SIZE: nat := 2097152
  const LEEWAY: nat := 1024

  type Message = seq<Byte>

  predicate Sendable(m: Message) { 1 <= |m| <= MAX_MESSAGE_SIZE }

  /** The length prefix holds the low 32 bits of the size. */
  function Frame(m: Message): seq<Byte> {
    Bytes32(|m| % 0x1_0000_0000) + m
  }

  predicate AllSendable(messages: seq<Message>) { forall i :: 0 <= i < |messages| ==> Sendable(messages[i]) }

  /** The byte stream of the messages from position k on. */
  function Frames(messages: seq<Message>, k: nat): seq<Byte>
    requires k <= |messages| && AllSendable(messages)
    decreases |messages| - k
  {
    if k == |messages| then [] else Frame(messages[k]) + Frames(messages, k + 1)
  }

  /** The reading half of a connection: what it waits for, its buffer, and the messages handed up. */
  datatype Phase = ReadingSize | ReadingData | Stopped

  datatype Reader = Reader(phase: Phase, buffer: seq<Byte>, dataSize: nat, dataReceived: nat, messages: seq<Message>) {
    predicate Valid() {
      && (phase == ReadingSize ==> |buffer| == 4)
      && (phase == ReadingData ==> dataReceived < |buffer| <= dataSize)
    }

    /** The least and the most that the outstanding AsyncRead completes with. */
    function AtLeast(): nat { if phase == ReadingSize then 4 else 1 }
    function AtMost(): nat { if phase == ReadingSize then 4 else if |buffer| > dataReceived then |buffer| - dataReceived else 0 }
  }

  const INITIAL_READER := Reader(ReadingSize, [0, 0, 0, 0], 0, 0, [])

  function Resized(buffer: seq<Byte>, size: nat): (b: seq<Byte>)
    ensures |b| == size
  {
    if size <= |buffer| then buffer[..size] else buffer + seq(size - |buffer|, i => 0)
  }

  /** StartReadData: room for what is still missing, but no more than the socket's best size at a time. */
  function StartReadData(r: Reader, best: nat): Reader
    requires r.dataReceived <= r.dataSize
  {
    var missing := r.dataSize - r.dataReceived;
    r.(phase := ReadingData, buffer := Resized(r.buffer, r.dataReceived + if best < missing then best else missing))
  }

  function StartReadSize(r: Reader): Reader {
    r.(phase := ReadingSize, buffer := Resized([], 4))
  }

  function HandleReadSize(r: Reader, chunk: seq<Byte>, best: nat): Reader
    requires |chunk| == 4
  {
    var size := Read32(chunk, 0);
    if size > MAX_MESSAGE_SIZE + LEEWAY then r.(phase := Stopped, buffer := chunk, dataSize := size)
    else StartReadData(r.(buffer := chunk, dataSize := size, dataReceived := 0), best)
  }

  function HandleReadData(r: Reader, chunk: seq<Byte>, best: nat): Reader
    requires r.dataReceived + |chunk| <= |r.buffer| <= r.dataSize
  {
    var buffer := r.buffer[..r.dataReceived] + chunk + r.buffer[r.dataReceived + |chunk|..];
    var r' := r.(buffer := buffer, dataReceived := r.dataReceived + |chunk|);
    if r'.dataReceived == r'.dataSize then StartReadSize(r'.(messages := r.messages + [buffer])) else StartReadData(r', best)
  }

  /** One completed read. */
  function Feed(r: Reader, chunk: seq<Byte>, best: nat): Reader
    requires r.Valid() && r.AtLeast() <= |chunk| <= r.AtMost()
  {
    if r.phase == ReadingSize then HandleReadSize(r, chunk, best)
    else if r.phase == ReadingData then HandleReadData(r, chunk, best)
    else r
  }

  /** A reader that has taken in everything of the stream but `rest`. */
  ghost predicate InStep(r: Reader, messages: seq<Message>, rest: seq<Byte>) {
    && AllSendable(messages) && |r.messages| <= |messages| && r.messages == messages[..|r.messages|] && r.Valid()
    && match r.phase
       case ReadingSize => rest == Frames(messages, |r.messages|)
       case ReadingData =>
         && |r.messages| < |messages|
         && var m := messages[|r.messages|];
         && r.dataSize == |m| && r.buffer[..r.dataReceived] == m[..r.dataReceived]
         && rest == m[r.dataReceived..] + Frames(messages, |r.messages| + 1)
       case Stopped => false
  }

  lemma FrameStart(m: Message, rest: seq<Byte>)
    requires Sendable(m)
    ensures (Frame(m) + rest)[..4] == Bytes32(|m|) && (Frame(m) + rest)[4..] == m + rest
    ensures Read32(Bytes32(|m|), 0) == |m|
  {
    assert Frame(m) == Bytes32(|m|) + m;
    Read32Bytes32(|m|);
    Segments(Bytes32(|m|), m, rest);
  }

  /** Four bytes of size, most significant first, and the message. */
  lemma FrameLayout(m: Message)
    ensures WordIs(Frame(m), 0, |m| % 0x1_0000_0000) && Frame(m)[4..] == m
  {
    var size := |m| % 0x1_0000_0000;
    Read32Bytes32(size);
    WordRead(Bytes32(size), 0);
    assert Frame(m)[0] == Bytes32(size)[0] && Frame(m)[1] == Bytes32(size)[1];
    assert Frame(m)[2] == Bytes32(size)[2] && Frame(m)[3] == Bytes32(size)[3];
  }

  /** The reader gives up exactly on a size of more than 2098176 bytes. */
  lemma ReaderStopsExactly(r: Reader, chunk: seq<Byte>, best: nat, size: nat)
    requires r.phase == ReadingSize && r.Valid() && |chunk| == 4 && WordIs(chunk, 0, size)
    ensures Feed(r, chunk, best).phase == Stopped <==> size > 2098176
  {
    WordRead(chunk, 0);
  }

  lemma Segments(a: seq<Byte>, b: seq<Byte>, c: seq<Byte>)
    ensures (a + b + c)[..|a|] == a && (a + b + c)[|a|..] == b + c
  {
    assert a + b + c == a + (b + c);
  }

  lemma FeedSize(r: Reader, messages: seq<Message>, rest: seq<Byte>, best: nat)
    requires InStep(r, messages, rest) && r.phase == ReadingSize && |rest| >= 4 && best > 0
    ensures InStep(Feed(r, rest[..4], best), messages, rest[4..])
  {
    var k := |r.messages|;
    assert k < |messages|;
    var m := messages[k];
    FrameStart(m, Frames(messages, k + 1));
    var r' := Feed(r, rest[..4], best);
    assert r'.phase == ReadingData && r'.dataSize == |m| && r'.dataReceived == 0;
    assert m[0..] == m;
  }

  /** The bytes of a message that a read puts behind those already there. */
  lemma BufferGrows(buffer: seq<Byte>, chunk: seq<Byte>, m: Message, d: nat)
    requires d + |chunk| <= |buffer| <= |m| && buffer[..d] == m[..d] && chunk == m[d..d + |chunk|]
    ensures var b := buffer[..d] + chunk + buffer[d + |chunk|..];
      b[..d + |chunk|] == m[..d + |chunk|] && (d + |chunk| == |m| ==> b == m)
  {
    var n := d + |chunk|;
    var b := buffer[..d] + chunk + buffer[n..];
    assert m[..d] + m[d..n] == m[..n];
    assert b[..n] == buffer[..d] + chunk;
    if n == |m| {
      assert b == b[..n] && m == m[..n];
    }
  }

  lemma FeedData(r: Reader, messages: seq<Message>, rest: seq<Byte>, n: nat, best: nat)
    requires InStep(r, messages, rest) && r.phase == ReadingData && 1 <= n <= r.AtMost() && n <= |rest| && best > 0
    ensures InStep(Feed(r, rest[..n], best), messages, rest[n..])
  {
    var k, d := |r.messages|, r.dataReceived;
    var m, tail := messages[k], Frames(messages, k + 1);
    PieceOf(m, d, n, tail);
    var chunk := rest[..n];
    BufferGrows(r.buffer, chunk, m, d);
    var buffer := r.buffer[..d] + chunk + r.buffer[d + n..];
    var r' := Feed(r, chunk, best);
    if d + n == |m| {
      assert messages[..k + 1] == messages[..k] + [m];
      assert r'.messages == r.messages + [m];
      assert rest[n..] == tail;
    } else {
      assert r'.buffer[..d + n] == buffer[..d + n];
    }
  }

  lemma PieceOf(m: Message, d: nat, n: nat, tail: seq<Byte>)
    requires d + n <= |m|
    ensures (m[d..] + tail)[..n] == m[d..d + n] && (m[d..] + tail)[n..] == m[d + n..] + tail
  {
  }

  /** A way of cutting the stream into reads: the length of each, with the best size at that moment. */
  datatype Piece = Piece(length: nat, best: nat)

  ghost predicate CanFeed(r: Reader, rest: seq<Byte>, pieces: seq<Piece>)
    decreases |pieces|
  {
    pieces == [] ||
    (var p := pieces[0];
     && p.best > 0 && r.Valid() && r.phase != Stopped && r.AtLeast() <= p.length <= r.AtMost() && p.length <= |rest|
     && CanFeed(Feed(r, rest[..p.length], p.best), rest[p.length..], pieces[1..]))
  }

  ghost function FeedAll(r: Reader, rest: seq<Byte>, pieces: seq<Piece>): (Reader, seq<Byte>)
    requires CanFeed(r, rest, pieces)
    decreases |pieces|
  {
    if pieces == [] then (r, rest)
    else FeedAll(Feed(r, rest[..pieces[0].length], pieces[0].best), rest[pieces[0].length..], pieces[1..])
  }

  lemma {:induction false} FeedAllInStep(r: Reader, messages: seq<Message>, rest: seq<Byte>, pieces: seq<Piece>)
    requires InStep(r, messages, rest) && CanFeed(r, rest, pieces)
    ensures var (r', rest') := FeedAll(r, rest, pieces); InStep(r', messages, rest')
    decreases |pieces|
  {
    if pieces != [] {
      var p := pieces[0];
      if r.phase == ReadingSize {
        FeedSize(r, messages, rest, p.best);
      } else {
        FeedData(r, messages, rest, p.length, p.best);
      }
      FeedAllInStep(Feed(r, rest[..p.length], p.best), messages, rest[p.length..], pieces[1..]);
    }
  }

  /** However the stream of the frames is cut into reads, the reader hands up the messages in order,
      never stops, and has handed up all of them when the stream is used up. */
  lemma FramingRoundTrip(messages: seq<Message>, pieces: seq<Piece>)
    requires AllSendable(messages) && CanFeed(INITIAL_READER, Frames(messages, 0), pieces)
    ensures var (r, rest) := FeedAll(INITIAL_READER, Frames(messages, 0), pieces);
      && r.messages <= messages && r.phase != Stopped
      && (rest == [] ==> r.messages == messages)
  {
    FeedAllInStep(INITIAL_READER, messages, Frames(messages, 0), pieces);
    var (r, rest) := FeedAll(INITIAL_READER, Frames(messages, 0), pieces);
    if r.phase == ReadingSize && |r.messages| < |messages| {
      assert |rest| >= 4;
    }
    assert rest == [] ==> |r.messages| == |messages|;
  }

  /** As long as bytes remain, some read can complete. */
  lemma ReaderNeverStarves(r: Reader, messages: seq<Message>, rest: seq<Byte>)
    requires InStep(r, messages, rest) && rest != []
    ensures r.AtLeast() <= |rest| && r.AtLeast() <= r.AtMost()
  {
    if r.phase == ReadingSize {
      assert |r.messages| < |messages|;
    }
  }

  /** The next piece of a greedy reader. */
  function NextPiece(r: Reader): Piece { Piece(r.AtLeast(), 1) }

  lemma FeedKeepsStep(r: Reader, messages: seq<Message>, rest: seq<Byte>, p: Piece)
    requires InStep(r, messages, rest) && p.best > 0 && r.AtLeast() <= p.length <= r.AtMost() && p.length <= |rest|
    ensures InStep(Feed(r, rest[..p.length], p.best), messages, rest[p.length..])
  {
    if r.phase == ReadingSize {
      FeedSize(r, messages, rest, p.best);
    } else {
      FeedData(r, messages, rest, p.length, p.best);
    }
  }

  /** However far a reader has got, it can read the rest of the stream. */
  lemma {:induction false} ReadingCanFinish(r: Reader, messages: seq<Message>, rest: seq<Byte>) returns (pieces: seq<Piece>)
    requires InStep(r, messages, rest)
    ensures CanFeed(r, rest, pieces) && FeedAll(r, rest, pieces).1 == []
    decreases |rest|
  {
    if rest == [] {
      pieces := [];
    } else {
      var p := NextPiece(r);
      ReaderNeverStarves(r, messages, rest);
      FeedKeepsStep(r, messages, rest, p);
      var more := ReadingCanFinish(Feed(r, rest[..p.length], p.best), messages, rest[p.length..]);
      pieces := [p] + more;
      assert pieces[1..] == more;
    }
  }

  lemma {:induction false} FeedAppend(r: Reader, rest: seq<Byte>, a: seq<Piece>, b: seq<Piece>)
    requires CanFeed(r, rest, a)
    requires var (r', rest') := FeedAll(r, rest, a); CanFeed(r', rest', b)
    ensures CanFeed(r, rest, a + b)
    ensures var (r', rest') := FeedAll(r, rest, a); FeedAll(r, rest, a + b) == FeedAll(r', rest', b)
    decreases |a|
  {
    if a == [] {
      assert a + b == b;
    } else {
      var p := a[0];
      assert (a + b)[0] == p && (a + b)[1..] == a[1..] + b;
      FeedAppend(Feed(r, rest[..p.length], p.best), rest[p.length..], a[1..], b);
    }
  }

  // ---- Longer streams ----

  lemma {:induction false} FramesGrow(messages: seq<Message>, m: Message, k: nat)
    requires k <= |messages| && AllSendable(messages) && Sendable(m)
    ensures AllSendable(messages + [m]) && Frames(messages + [m], k) == Frames(messages, k) + Frame(m)
    decreases |messages| - k
  {
    var longer := messages + [m];
    if k == |messages| {
      assert Frames(longer, k + 1) == [];
      assert Frames(longer, k) == Frame(m) + [] == [] + Frame(m);
    } else {
      FramesGrow(messages, m, k + 1);
      assert longer[k] == messages[k];
      assert Frame(messages[k]) + (Frames(messages, k + 1) + Frame(m)) == Frame(messages[k]) + Frames(messages, k + 1) + Frame(m);
    }
  }

  /** A reader stays in step when one more message is sent. */
  lemma InStepGrows(r: Reader, messages: seq<Message>, rest: seq<Byte>, m: Message)
    requires InStep(r, messages, rest) && Sendable(m)
    ensures InStep(r, messages + [m], rest + Frame(m))
  {
    var k := |r.messages|;
    FramesGrow(messages, m, k);
    if r.phase == ReadingData {
      FramesGrow(messages, m, k + 1);
      assert (messages[k][r.dataReceived..] + Frames(messages, k + 1)) + Frame(m) ==
             messages[k][r.dataReceived..] + (Frames(messages, k + 1) + Frame(m));
    }
  }

  /** A reader that has taken in everything has handed up everything. */
  lemma InStepAtTheEnd(r: Reader, messages: seq<Message>)
    requires InStep(r, messages, [])
    ensures r.messages == messages
  {
  }

  /** Any way of beginning to read the frames can be continued until every message has been handed up. */
  lemma EveryReadingCanFinish(messages: seq<Message>, pieces: seq<Piece>) returns (more: seq<Piece>)
    requires AllSendable(messages) && CanFeed(INITIAL_READER, Frames(messages, 0), pieces)
    ensures CanFeed(INITIAL_READER, Frames(messages, 0), pieces + more)
    ensures FeedAll(INITIAL_READER, Frames(messages, 0), pieces + more).0.messages == messages
  {
    FeedAllInStep(INITIAL_READER, messages, Frames(messages, 0), pieces);
    var (r, rest) := FeedAll(INITIAL_READER, Frames(messages, 0), pieces);
    more := ReadingCanFinish(r, messages, rest);
    FeedAppend(INITIAL_READER, Frames(messages, 0), pieces, more);
    FramingRoundTrip(messages, pieces + more);
  }
}

/** The sending half of a connection: messages leave first in first out, one write at a time, each as a
    whole frame. */
module Outboxes {
  import opened Packets
  import opened CodecSpec
  import opened Framing

  /** `posted` is the request whose sending is scheduled but has not begun; `writing` says that the socket
      is busy with a write. `submitted` and `started` are the messages taken in and begun so far. */
  datatype Outbox = Outbox(
    queue: seq<Message>, sending: bool, posted: Option<Message>, writing: bool,
    submitted: seq<Message>, started: seq<Message>)
  {
    function Posted(): seq<Message> { if posted.Some? then [posted.value] else [] }

    ghost predicate Valid() {
      && AllSendable(submitted) && AllSendable(started)
      && submitted == started + Posted() + queue
      && (sending <==> posted.Some? || writing) && !(posted.Some? && writing)
      && (!sending ==> queue == [])
    }
  }

  const EMPTY_OUTBOX := Outbox([], false, None, false, [], [])

  function Started(o: Outbox, m: Message): Outbox {
    o.(sending := true, writing := true, started := o.started + [m])
  }

  /** DoQueueSendRequest: a message waits in the queue while another one is on its way. */
  function Queued(o: Outbox, m: Message): Outbox {
    var o1 := o.(submitted := o.submitted + [m]);
    if o.sending then o1.(queue := o.queue + [m]) else Started(o1, m)
  }

  /** The scheduled DoStartSending runs. */
  function PostedRuns(o: Outbox): Outbox
    requires o.posted.Some?
  {
    Started(o.(posted := None), o.posted.value)
  }

  /** FinishSendAndQueueNext, when the socket has taken in the whole frame. */
  function Finished(o: Outbox): Outbox {
    if o.queue == [] then o.(writing := false, sending := false)
    else o.(writing := false, posted := Some(o.queue[0]), queue := o.queue[1..])
  }

  lemma QueuedKeeps(o: Outbox, m: Message)
    requires o.Valid() && Sendable(m)
    ensures Queued(o, m).Valid()
    ensures !o.sending ==> o.posted == None && !o.writing && Queued(o, m).started == o.started + [m]
  {
    var o' := Queued(o, m);
    if o.sending {
      assert o'.submitted == o.started + o.Posted() + (o.queue + [m]);
    } else {
      assert o'.submitted == o'.started + [] + [];
    }
  }

  lemma PostedRunsKeeps(o: Outbox)
    requires o.Valid() && o.posted.Some?
    ensures Sendable(o.posted.value) && PostedRuns(o).Valid()
  {
    var m := o.posted.value;
    assert o.submitted[|o.started|] == m;
    assert o.submitted == (o.started + [m]) + [] + o.queue;
  }

  lemma FinishedKeeps(o: Outbox)
    requires o.Valid() && o.writing
    ensures Finished(o).Valid()
    ensures o.queue == [] ==> Finished(o).started == Finished(o).submitted
  {
    if o.queue != [] {
      assert o.submitted == o.started + [o.queue[0]] + o.queue[1..];
    }
  }

  /** A message that has not begun is scheduled or waits behind one that is on its way. */
  lemma NotYetStarted(o: Outbox)
    requires o.Valid() && o.started != o.submitted
    ensures |o.started| < |o.submitted| && (o.posted.Some? || (o.writing && o.queue != []))
  {
  }

  /** All frames of the first k messages, in order. */
  function AllFrames(messages: seq<Message>, k: nat): seq<Byte>
    requires k <= |messages| && AllSendable(messages)
  {
    if k == 0 then [] else AllFrames(messages, k - 1) + Frame(messages[k - 1])
  }

  lemma {:induction false} FramesBothWays(messages: seq<Message>, k: nat)
    requires k <= |messages| && AllSendable(messages)
    ensures AllFrames(messages, k) + Frames(messages, k) == Frames(messages, 0)
  {
    if k > 0 {
      FramesBothWays(messages, k - 1);
      assert AllFrames(messages, k - 1) + (Frame(messages[k - 1]) + Frames(messages, k)) ==
             AllFrames(messages, k - 1) + Frame(messages[k - 1]) + Frames(messages, k);
    }
  }

  lemma {:induction false} FramesPrefix(messages: seq<Message>, m: Message, k: nat)
    requires k <= |messages| && AllSendable(messages) && Sendable(m)
    ensures AllSendable(messages + [m]) && AllFrames(messages + [m], k) == AllFrames(messages, k)
  {
    if k > 0 {
      FramesPrefix(messages, m, k - 1);
    }
  }

  /** Beginning a message appends its frame to what has been written. */
  lemma FramesAppend(messages: seq<Message>, m: Message)
    requires AllSendable(messages) && Sendable(m)
    ensures AllSendable(messages + [m])
    ensures AllFrames(messages + [m], |messages| + 1) == AllFrames(messages, |messages|) + Frame(m)
  {
    FramesPrefix(messages, m, |messages|);
  }

  /** The frames of fewer messages are a prefix. */
  lemma {:induction false} FramesOfPrefix(messages: seq<Message>, all: seq<Message>)
    requires messages <= all && AllSendable(all)
    ensures AllSendable(messages) && AllFrames(messages, |messages|) <= AllFrames(all, |all|)
    decreases |all|
  {
    if messages != all {
      var shorter := all[..|all| - 1];
      assert all == shorter + [all[|all| - 1]];
      FramesOfPrefix(messages, shorter);
      FramesAppend(shorter, all[|all| - 1]);
    } else {
      assert forall i :: 0 <= i < |messages| ==> messages[i] == all[i];
    }
  }
}

module Connections {
  import opened Packets
  import opened CodecSpec
  import opened WireLayouts
  import opened Framing
  import opened Outboxes

  class Connection {
    // The sending half.
    var sendQueue: seq<Message>
    var sending: bool
    var sendBuffer: seq<Byte>
    /** The request of a DoStartSending that is posted to the strand and has not run yet. */
    var posted: Option<Message>
    /** Whether the socket is busy with a write. */
    var writing: bool
    // The receiving half.
    var receiveBuffer: seq<Byte>
    var dataSize: nat
    var dataReceived: nat
    var phase: Phase
    var messages: seq<Message>
    // History: the messages accepted for sending and those whose frames went to the socket.
    ghost var submitted: seq<Message>
    ghost var started: seq<Message>

    ghost function OutboxView(): Outbox
      reads this
    {
      Outbox(sendQueue, sending, posted, writing, submitted, started)
    }

    ghost function ReaderView(): Reader
      reads this
    {
      Reader(phase, receiveBuffer, dataSize, dataReceived, messages)
    }

    constructor ()
      ensures OutboxView() == EMPTY_OUTBOX && ReaderView() == INITIAL_READER
    {
      sendQueue, sending, sendBuffer, posted, writing := [], false, [], None, false;
      submitted, started := [], [];
      receiveBuffer, dataSize, dataReceived, phase, messages := [0, 0, 0, 0], 0, 0, ReadingSize, [];
    }

    /** Returns the frame handed to the socket, if any. */
    method DoQueueSendRequest(request: Message) returns (frame: Option<seq<Byte>>)
      modifies this`sendQueue, this`sending, this`sendBuffer, this`writing, this`submitted, this`started
      ensures OutboxView() == Queued(old(OutboxView()), request)
      ensures frame == if old(sending) then None else Some(Frame(request))
    {
      submitted := submitted + [request];
      if sending {
        sendQueue := sendQueue + [request];
        frame := None;
      } else {
        var f := Start(request);
        frame := Some(f);
      }
    }

    /** The body of DoStartSending. */
    method Start(request: Message) returns (frame: seq<Byte>)
      modifies this`sending, this`sendBuffer, this`writing, this`started
      ensures OutboxView() == Started(old(OutboxView()), request) && frame == Frame(request)
    {
      sending := true;
      EncodeData(request);
      frame := sendBuffer;
      writing := true;
      started := started + [request];
    }

    /** The posted DoStartSending runs. */
    method DoStartSending() returns (frame: seq<Byte>)
      requires posted.Some?
      modifies this`sending, this`sendBuffer, this`posted, this`writing, this`started
      ensures OutboxView() == PostedRuns(old(OutboxView())) && frame == Frame(old(posted).value)
    {
      var request := posted.value;
      posted := None;
      frame := Start(request);
    }

    /** HandleWrite, when the socket has taken in the whole frame. */
    method FinishSendAndQueueNext()
      modifies this`sendQueue, this`sending, this`posted, this`writing
      ensures OutboxView() == Finished(old(OutboxView()))
    {
      writing := false;
      if sendQueue == [] {
        sending := false;
      } else {
        posted := Some(sendQueue[0]);
        sendQueue := sendQueue[1..];
      }
    }

    method EncodeData(data: Message)
      modifies this`sendBuffer
      ensures sendBuffer == Frame(data)
      ensures WordIs(sendBuffer, 0, |data| % 0x1_0000_0000) && sendBuffer[4..] == data
    {
      var size := |data| % 0x1_0000_0000;
      sendBuffer := [];
      var shifts := [0x100_0000, 0x1_0000, 0x100, 1];
      var i := 0;
      while i != 4
        invariant 0 <= i <= 4 && sendBuffer == Bytes32(size)[..i]
      {
        sendBuffer := sendBuffer + [size / shifts[i] % 0x100];
        i := i + 1;
      }
      sendBuffer := sendBuffer + data;
      FrameLayout(data);
    }

    method StartReadSize()
      modifies this`receiveBuffer, this`phase
      ensures ReaderView() == Framing.StartReadSize(old(ReaderView()))
    {
      receiveBuffer := [];
      receiveBuffer := Resized(receiveBuffer, 4);
      phase := ReadingSize;
    }

    method HandleReadSize(chunk: seq<Byte>, best: nat)
      requires phase == ReadingSize && |chunk| == 4
      modifies this`receiveBuffer, this`dataSize, this`dataReceived, this`phase
      ensures ReaderView() == Framing.HandleReadSize(old(ReaderView()), chunk, best)
    {
      receiveBuffer := chunk;
      dataSize := Read32(chunk, 0);
      if dataSize > MAX_MESSAGE_SIZE + LEEWAY {
        phase := Stopped;
        return;
      }
      dataReceived := 0;
      StartReadData(best);
    }

    method StartReadData(best: nat)
      requires dataReceived <= dataSize
      modifies this`receiveBuffer, this`phase
      ensures ReaderView() == Framing.StartReadData(old(ReaderView()), best)
    {
      var bufferSize := dataReceived;
      bufferSize := bufferSize + if best < dataSize - dataReceived then best else dataSize - dataReceived;
      receiveBuffer := Resized(receiveBuffer, bufferSize);
      phase := ReadingData;
    }

    method HandleReadData(chunk: seq<Byte>, best: nat)
      requires phase == ReadingData && dataReceived + |chunk| <= |receiveBuffer| <= dataSize
      modifies this`receiveBuffer, this`dataReceived, this`phase, this`messages
      ensures ReaderView() == Framing.HandleReadData(old(ReaderView()), chunk, best)
    {
      receiveBuffer := receiveBuffer[..dataReceived] + chunk + receiveBuffer[dataReceived + |chunk|..];
      dataReceived := dataReceived + |chunk|;
      if dataReceived == dataSize {
        messages := messages + [receiveBuffer];
        StartReadSize();
      } else {
        StartReadData(best);
      }
    }
  }
}
