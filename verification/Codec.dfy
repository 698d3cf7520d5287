/** Packets as bytes, and bytes as packets again. */
module CodecSpec {
  import opened SequenceNumbers
  import opened Packets

  const ACK_TYPE: nat := 2
  const NEGATIVE_ACK_TYPE: nat := 3
  const ACK_OF_ACK_TYPE: nat := 6
  const KEEPALIVE_TYPE: nat := 1
  const SHUTDOWN_TYPE: nat := 5
  const HANDSHAKE_TYPE: nat := 0
  const HANDSHAKE_MINIMUM: nat := 16 + 121

  /** Four bytes, most significant first. */
  function Bytes32(n: Uint32): (b: seq<Byte>)
    ensures |b| == 4
  {
    [n / 0x100_0000, n / 0x1_0000 % 0x100, n / 0x100 % 0x100, n % 0x100]
  }

  /** The number with these bytes, most significant first. */
  function Join(a: nat, b: nat, c: nat, d: nat): nat {
    ((a * 0x100 + b) * 0x100 + c) * 0x100 + d
  }

  function Read32(b: seq<Byte>, i: nat): Uint32
    requires i + 4 <= |b|
  {
    Join(b[i], b[i + 1], b[i + 2], b[i + 3])
  }

  lemma DivideBy(n: nat, q: nat, r: nat)
    ensures n == q * 0x1_0000 + r && r < 0x1_0000 ==> n / 0x1_0000 == q
    ensures n == q * 0x100_0000 + r && r < 0x100_0000 ==> n / 0x100_0000 == q
  {
  }

  /** Cutting a number into bytes and joining them again. */
  lemma JoinBytes(n: nat)
    ensures Join(n / 0x100_0000, n / 0x1_0000 % 0x100, n / 0x100 % 0x100, n % 0x100) == n
  {
    var q1, r0 := n / 0x100, n % 0x100;
    var q2, r1 := q1 / 0x100, q1 % 0x100;
    var q3, r2 := q2 / 0x100, q2 % 0x100;
    DivideBy(n, q2, r1 * 0x100 + r0);
    DivideBy(n, q3, r2 * 0x1_0000 + r1 * 0x100 + r0);
  }

  lemma Read32Bytes32(n: Uint32)
    ensures Read32(Bytes32(n), 0) == n
  {
    JoinBytes(n);
  }

  /** A word keeps its value wherever it stands. */
  lemma Read32At(prefix: seq<Byte>, n: Uint32, suffix: seq<Byte>)
    ensures Read32(prefix + Bytes32(n) + suffix, |prefix|) == n
  {
    var b := prefix + Bytes32(n) + suffix;
    Read32Bytes32(n);
    assert b[|prefix|] == Bytes32(n)[0] && b[|prefix| + 1] == Bytes32(n)[1];
    assert b[|prefix| + 2] == Bytes32(n)[2] && b[|prefix| + 3] == Bytes32(n)[3];
  }

  /** The header that all control packets share. */
  datatype Control = Control(kind: nat, info: Uint32, timeStamp: Uint32, destination: Uint32)

  function ControlBytes(c: Control): (b: seq<Byte>)
    ensures |b| == 16
  {
    KindBytes(c.kind) + Bytes32(c.info) + Bytes32(c.timeStamp) + Bytes32(c.destination)
  }

  predicate IsControl(b: seq<Byte>, kind: nat) {
    |b| >= 16 && b[0] >= 0x80 && b[0] % 0x80 == kind / 0x100 % 0x80 && b[1] == kind % 0x100
  }

  function DecodeControl(b: seq<Byte>): Control
    requires |b| >= 16
  {
    Control(Join(0, 0, b[0] % 0x80, b[1]), Read32(b, 4), Read32(b, 8), Read32(b, 12))
  }

  /** The three words of a header, each read back by itself. */
  lemma FirstWord(start: seq<Byte>, n: Uint32, second: seq<Byte>, third: seq<Byte>, rest: seq<Byte>)
    ensures Read32(start + Bytes32(n) + second + third + rest, |start|) == n
  {
    Read32At(start, n, second + third + rest);
    assert start + Bytes32(n) + second + third + rest == start + Bytes32(n) + (second + third + rest);
  }

  lemma SecondWord(start: seq<Byte>, first: seq<Byte>, n: Uint32, third: seq<Byte>, rest: seq<Byte>)
    ensures Read32(start + first + Bytes32(n) + third + rest, |start| + |first|) == n
  {
    Read32At(start + first, n, third + rest);
    assert start + first + Bytes32(n) + third + rest == start + first + Bytes32(n) + (third + rest);
  }

  function KindBytes(kind: nat): (b: seq<Byte>)
    ensures |b| == 4
  {
    [0x80 + kind / 0x100 % 0x80, kind % 0x100, 0, 0]
  }

  lemma KindRoundTrip(kind: nat, rest: seq<Byte>)
    requires kind < 0x8000 && |rest| >= 12
    ensures var b := KindBytes(kind) + rest;
      && IsControl(b, kind) && Join(0, 0, b[0] % 0x80, b[1]) == kind
      && (forall other :: 0 <= other < 0x8000 && other != kind ==> !IsControl(b, other))
  {
    var b := KindBytes(kind) + rest;
    assert b[0] == 0x80 + kind / 0x100 && b[1] == kind % 0x100;
    forall other | 0 <= other < 0x8000 && IsControl(b, other) ensures other == kind {
      assert other / 0x100 == kind / 0x100 && other % 0x100 == kind % 0x100;
    }
  }

  lemma ControlRoundTrip(c: Control, rest: seq<Byte>)
    requires c.kind < 0x8000
    ensures IsControl(ControlBytes(c) + rest, c.kind) && DecodeControl(ControlBytes(c) + rest) == c
    ensures forall kind :: 0 <= kind < 0x8000 && kind != c.kind ==> !IsControl(ControlBytes(c) + rest, kind)
  {
    var k, i, t, d := KindBytes(c.kind), Bytes32(c.info), Bytes32(c.timeStamp), Bytes32(c.destination);
    HeaderParts(k, i, t, d, rest);
    KindRoundTrip(c.kind, i + t + d + rest);
    FirstWord(k, c.info, t, d, rest);
    SecondWord(k, i, c.timeStamp, d, rest);
    Read32At(k + i + t, c.destination, rest);
  }

  lemma HeaderParts(k: seq<Byte>, i: seq<Byte>, t: seq<Byte>, d: seq<Byte>, rest: seq<Byte>)
    ensures k + i + t + d + rest == k + (i + t + d + rest)
  {
  }

  // ---- Words ----

  function WordBytes(words: seq<Uint32>, k: nat): (b: seq<Byte>)
    requires k <= |words|
    ensures |b| == 4 * k
  {
    if k == 0 then [] else WordBytes(words, k - 1) + Bytes32(words[k - 1])
  }

  lemma {:induction false} WordAt(words: seq<Uint32>, k: nat, i: nat, prefix: seq<Byte>, suffix: seq<Byte>)
    requires i < k <= |words|
    ensures Read32(prefix + WordBytes(words, k) + suffix, |prefix| + 4 * i) == words[i]
  {
    var b := prefix + WordBytes(words, k) + suffix;
    var before := WordBytes(words, k - 1);
    var last := Bytes32(words[k - 1]);
    if i == k - 1 {
      assert b == (prefix + before) + last + suffix;
      Read32At(prefix + before, words[i], suffix);
    } else {
      assert b == prefix + before + (last + suffix);
      WordAt(words, k - 1, i, prefix, last + suffix);
    }
  }

  function DecodeWords(b: seq<Byte>, at: nat, count: nat): (words: seq<Uint32>)
    requires at + 4 * count <= |b|
    ensures |words| == count
  {
    if count == 0 then [] else DecodeWords(b, at, count - 1) + [Read32(b, at + 4 * (count - 1))]
  }

  lemma {:induction false} DecodedWordAt(b: seq<Byte>, at: nat, count: nat, i: nat)
    requires at + 4 * count <= |b| && i < count
    ensures DecodeWords(b, at, count)[i] == Read32(b, at + 4 * i)
  {
    if i < count - 1 {
      DecodedWordAt(b, at, count - 1, i);
    }
  }

  lemma {:induction false} FirstWords(prefix: seq<Byte>, words: seq<Uint32>, k: nat)
    requires k <= |words|
    ensures DecodeWords(prefix + WordBytes(words, |words|), |prefix|, k) == words[..k]
  {
    if k > 0 {
      FirstWords(prefix, words, k - 1);
      var b := prefix + WordBytes(words, |words|);
      assert Read32(b, |prefix| + 4 * (k - 1)) == words[k - 1] by {
        WordAt(words, |words|, k - 1, prefix, []);
        assert b + [] == b;
      }
      assert words[..k] == words[..k - 1] + [words[k - 1]];
    }
  }

  lemma WordsRoundTrip(prefix: seq<Byte>, words: seq<Uint32>)
    ensures DecodeWords(prefix + WordBytes(words, |words|), |prefix|, |words|) == words
  {
    FirstWords(prefix, words, |words|);
    assert words[..|words|] == words;
  }

  /** All whole words after the header. */
  function BodyWords(b: seq<Byte>): seq<Uint32>
    requires |b| >= 16
  {
    DecodeWords(b, 16, (|b| - 16) / 4)
  }

  lemma BodyRoundTrip(c: Control, words: seq<Uint32>)
    ensures BodyWords(ControlBytes(c) + WordBytes(words, |words|)) == words
  {
    assert (|ControlBytes(c) + WordBytes(words, |words|)| - 16) / 4 == |words|;
    WordsRoundTrip(ControlBytes(c), words);
  }

  // ---- Negative acks ----

  function NegativeAckHeader(p: NegativeAckPacket): Control {
    Control(NEGATIVE_ACK_TYPE, p.additionalInfo, p.timeStamp, p.destination)
  }

  function NegativeAckBytes(p: NegativeAckPacket): seq<Byte> {
    ControlBytes(NegativeAckHeader(p)) + WordBytes(p.words, |p.words|)
  }

  function DecodeNegativeAck(b: seq<Byte>): Option<NegativeAckPacket> {
    if IsControl(b, NEGATIVE_ACK_TYPE) && |b| > 16 && (|b| - 16) % 4 == 0 then
      var c := DecodeControl(b);
      Some(NegativeAckPacket(c.info, c.timeStamp, c.destination, BodyWords(b)))
    else None
  }

  lemma NegativeAckRoundTrip(p: NegativeAckPacket)
    requires p.words != []
    ensures DecodeNegativeAck(NegativeAckBytes(p)) == Some(p)
  {
    ControlRoundTrip(NegativeAckHeader(p), WordBytes(p.words, |p.words|));
    BodyRoundTrip(NegativeAckHeader(p), p.words);
  }

  // ---- Acks ----

  predicate RangesValid(ranges: seq<Range>) {
    forall i :: 0 <= i < |ranges| ==> ranges[i].first <= MAX_SEQUENCE_NUMBER && ranges[i].last <= MAX_SEQUENCE_NUMBER
  }

  /** A range is encoded as its first number with the top bit set, and its last number. */
  function RangeWords(ranges: seq<Range>, k: nat): (words: seq<Uint32>)
    requires k <= |ranges| && RangesValid(ranges)
    ensures |words| == 2 * k
  {
    if k == 0 then [] else RangeWords(ranges, k - 1) + [MODULUS + ranges[k - 1].first, ranges[k - 1].last]
  }

  function InfoWords(info: Option<AckInfo>): (words: seq<Uint32>)
    ensures |words| == if info.Some? then 5 else 0
  {
    match info
    case None => []
    case Some(i) =>
      [i.roundTripTime, i.roundTripTimeVariance, i.availableBufferSize, i.packetsReceivingRate, i.estimatedLinkCapacity]
  }

  predicate AckEncodable(p: AckPacket) { RangesValid(p.ranges) && |p.ranges| < MODULUS }

  /** Everything after the header: how many words of ranges, the ranges, the optional fields. */
  function AckWords(p: AckPacket): seq<Uint32>
    requires AckEncodable(p)
  {
    [2 * |p.ranges|] + RangeWords(p.ranges, |p.ranges|) + InfoWords(p.info)
  }

  function AckHeader(p: AckPacket): Control {
    Control(ACK_TYPE, p.ackSequenceNumber, p.timeStamp, p.destination)
  }

  function AckBytes(p: AckPacket): seq<Byte>
    requires AckEncodable(p)
  {
    ControlBytes(AckHeader(p)) + WordBytes(AckWords(p), |AckWords(p)|)
  }

  /** The first word after the header counts the words of ranges; the size must fit it, without or with
      the five optional words. */
  predicate IsAck(b: seq<Byte>) {
    && IsControl(b, ACK_TYPE) && |b| >= 20 && (|b| - 16) % 4 == 0
    && var words := BodyWords(b); var count: nat := words[0];
       |words| == 1 + count || |words| == 1 + count + 5
  }

  /** Reads ranges from word i on; a word without the top bit is a range of one number. */
  function DecodeRanges(words: seq<Uint32>, i: nat): Option<seq<Range>>
    requires i <= |words|
    decreases |words| - i
  {
    if i == |words| then Some([])
    else if words[i] < MODULUS then
      var rest := DecodeRanges(words, i + 1);
      if rest == None then None else Some([Range(words[i], words[i])] + rest.value)
    else if i + 1 >= |words| then None
    else
      var rest := DecodeRanges(words, i + 2);
      if rest == None then None else Some([Range(words[i] - MODULUS, words[i + 1])] + rest.value)
  }

  function DecodeInfo(words: seq<Uint32>): Option<AckInfo> {
    if |words| != 5 then None else Some(AckInfo(words[0], words[1], words[2], words[3], words[4]))
  }

  function DecodeAck(b: seq<Byte>): Option<AckPacket> {
    if !IsAck(b) then None
    else
      var c, words := DecodeControl(b), BodyWords(b);
      var count: nat := words[0];
      var ranges := DecodeRanges(words[1..1 + count], 0);
      if ranges == None then None
      else Some(AckPacket(c.info, c.timeStamp, c.destination, ranges.value, DecodeInfo(words[1 + count..])))
  }

  lemma {:induction false} RangeWordAt(ranges: seq<Range>, k: nat, i: nat)
    requires i < k <= |ranges| && RangesValid(ranges)
    ensures RangeWords(ranges, k)[2 * i] == MODULUS + ranges[i].first
    ensures RangeWords(ranges, k)[2 * i + 1] == ranges[i].last
  {
    if i < k - 1 {
      RangeWordAt(ranges, k - 1, i);
    }
  }

  /** One round of decoding: a word with its top bit set and the word after it are a range. */
  lemma DecodeOne(words: seq<Uint32>, i: nat, rest: seq<Range>)
    requires i + 1 < |words| && words[i] >= MODULUS && DecodeRanges(words, i + 2) == Some(rest)
    ensures DecodeRanges(words, i) == Some([Range(words[i] - MODULUS, words[i + 1])] + rest)
  {
  }

  lemma {:induction false} RangesRoundTrip(ranges: seq<Range>, k: nat)
    requires k <= |ranges| && RangesValid(ranges)
    ensures DecodeRanges(RangeWords(ranges, |ranges|), 2 * k) == Some(ranges[k..])
    decreases |ranges| - k
  {
    var words := RangeWords(ranges, |ranges|);
    if k == |ranges| {
      assert ranges[k..] == [];
    } else {
      RangesRoundTrip(ranges, k + 1);
      RangeWordAt(ranges, |ranges|, k);
      assert 2 * k + 2 == 2 * (k + 1);
      DecodeOne(words, 2 * k, ranges[k + 1..]);
      assert ranges[k..] == [ranges[k]] + ranges[k + 1..];
      assert Range(words[2 * k] - MODULUS, words[2 * k + 1]) == ranges[k];
    }
  }

  lemma Parts(a: seq<Uint32>, b: seq<Uint32>, c: seq<Uint32>)
    ensures (a + b + c)[|a|..|a| + |b|] == b && (a + b + c)[|a| + |b|..] == c
  {
  }

  lemma AckWordsParts(p: AckPacket)
    requires AckEncodable(p)
    ensures AckWords(p)[0] == 2 * |p.ranges|
    ensures AckWords(p)[1..1 + 2 * |p.ranges|] == RangeWords(p.ranges, |p.ranges|)
    ensures AckWords(p)[1 + 2 * |p.ranges|..] == InfoWords(p.info)
  {
    Parts([2 * |p.ranges|], RangeWords(p.ranges, |p.ranges|), InfoWords(p.info));
  }

  lemma AckBytesDecode(p: AckPacket)
    requires AckEncodable(p)
    ensures var b := AckBytes(p);
      && |b| == p.RequiredBytes() && |b| >= 16 && (|b| - 16) % 4 == 0
      && IsControl(b, ACK_TYPE) && DecodeControl(b) == AckHeader(p) && BodyWords(b) == AckWords(p)
  {
    var words := AckWords(p);
    ControlRoundTrip(AckHeader(p), WordBytes(words, |words|));
    BodyRoundTrip(AckHeader(p), words);
  }

  /** What DecodeAck makes of a header and words that fit each other. */
  lemma DecodeAckParts(b: seq<Byte>, p: AckPacket, words: seq<Uint32>)
    requires IsControl(b, ACK_TYPE) && |b| >= 16 && (|b| - 16) % 4 == 0
    requires DecodeControl(b) == AckHeader(p) && BodyWords(b) == words
    requires |words| == 1 + 2 * |p.ranges| + |InfoWords(p.info)| && words[0] == 2 * |p.ranges|
    requires DecodeRanges(words[1..1 + 2 * |p.ranges|], 0) == Some(p.ranges)
    requires DecodeInfo(words[1 + 2 * |p.ranges|..]) == p.info
    ensures DecodeAck(b) == Some(p)
  {
  }

  lemma InfoRoundTrip(info: Option<AckInfo>)
    ensures DecodeInfo(InfoWords(info)) == info
  {
  }

  lemma AckWordsDecode(p: AckPacket)
    requires AckEncodable(p)
    ensures var words, n := AckWords(p), 2 * |p.ranges|;
      && |words| == 1 + n + |InfoWords(p.info)| && words[0] == n
      && DecodeRanges(words[1..1 + n], 0) == Some(p.ranges) && DecodeInfo(words[1 + n..]) == p.info
  {
    AckWordsParts(p);
    RangesRoundTrip(p.ranges, 0);
    assert p.ranges[0..] == p.ranges;
    InfoRoundTrip(p.info);
  }

  /** An ack survives the wire: same number, same ranges, same optional fields. */
  lemma AckRoundTrip(p: AckPacket)
    requires AckEncodable(p)
    ensures DecodeAck(AckBytes(p)) == Some(p)
    ensures |AckBytes(p)| == p.RequiredBytes()
  {
    AckBytesDecode(p);
    AckWordsDecode(p);
    DecodeAckParts(AckBytes(p), p, AckWords(p));
  }

  // ---- Data ----

  function Flag(b: bool, value: nat): nat { if b then value else 0 }

  function DataHeader(p: DataPacket): (b: seq<Byte>)
    requires p.messageNumber <= 0x1fff_ffff
    ensures |b| == 16
  {
    Bytes32(p.sequenceNumber) + MessageBytes(p.messageNumber, Flags(p)) + Bytes32(p.timeStamp) + Bytes32(p.destination)
  }

  function DataBytes(p: DataPacket): seq<Byte>
    requires p.messageNumber <= 0x1fff_ffff
  {
    DataHeader(p) + p.data
  }

  function DecodeData(b: seq<Byte>): Option<DataPacket> {
    if |b| < 16 || b[0] >= 0x80 then None
    else Some(DataPacket(
      Join(b[0] % 0x80, b[1], b[2], b[3]),
      b[4] >= 0x80, b[4] / 0x40 % 2 == 1, b[4] / 0x20 % 2 == 1,
      Join(b[4] % 0x20, b[5], b[6], b[7]),
      Read32(b, 8), Read32(b, 12), b[16..]))
  }

  lemma FlagsRoundTrip(m: nat, first: bool, last: bool, inOrder: bool)
    requires m < 0x20
    ensures var b := m + Flag(first, 0x80) + Flag(last, 0x40) + Flag(inOrder, 0x20);
      b < 0x100 && (b >= 0x80 <==> first) && (b / 0x40 % 2 == 1 <==> last) && (b / 0x20 % 2 == 1 <==> inOrder) && b % 0x20 == m
  {
  }

  /** The message number shares its first byte with the flags. */
  function MessageBytes(m: nat, flags: nat): (b: seq<Byte>)
    requires m <= 0x1fff_ffff && flags <= 0xe0
    ensures |b| == 4
  {
    [m / 0x100_0000 + flags, m / 0x1_0000 % 0x100, m / 0x100 % 0x100, m % 0x100]
  }

  function Flags(p: DataPacket): (f: nat)
    ensures f <= 0xe0
  {
    Flag(p.firstInMessage, 0x80) + Flag(p.lastInMessage, 0x40) + Flag(p.inOrder, 0x20)
  }

  lemma NumberRoundTrip(n: SeqNum, rest: seq<Byte>)
    ensures var b := Bytes32(n) + rest; b[0] < 0x80 && Join(b[0] % 0x80, b[1], b[2], b[3]) == n
  {
    JoinBytes(n);
  }

  lemma MessageRoundTrip(p: DataPacket, front: seq<Byte>, rest: seq<Byte>)
    requires p.messageNumber <= 0x1fff_ffff && |front| == 4
    ensures var b := front + (MessageBytes(p.messageNumber, Flags(p)) + rest);
      && (b[4] >= 0x80 <==> p.firstInMessage) && (b[4] / 0x40 % 2 == 1 <==> p.lastInMessage)
      && (b[4] / 0x20 % 2 == 1 <==> p.inOrder)
      && Join(b[4] % 0x20, b[5], b[6], b[7]) == p.messageNumber
  {
    FlagsRoundTrip(p.messageNumber / 0x100_0000, p.firstInMessage, p.lastInMessage, p.inOrder);
    JoinBytes(p.messageNumber);
  }

  lemma DataRoundTrip(p: DataPacket)
    requires p.messageNumber <= 0x1fff_ffff
    ensures DecodeData(DataBytes(p)) == Some(p)
  {
    var b := DataBytes(p);
    var n, m := Bytes32(p.sequenceNumber), MessageBytes(p.messageNumber, Flags(p));
    var t, d := Bytes32(p.timeStamp), Bytes32(p.destination);
    HeaderParts(n, m, t, d, p.data);
    NumberRoundTrip(p.sequenceNumber, m + t + d + p.data);
    assert m + t + d + p.data == m + (t + d + p.data);
    MessageRoundTrip(p, n, t + d + p.data);
    SecondWord(n, m, p.timeStamp, d, p.data);
    Read32At(n + m + t, p.destination, p.data);
    assert b[16..] == p.data;
  }

  // ---- Handshakes ----

  type Uint16 = n: nat | n < 0x1_0000

  /** A handshake packet as it travels: the node id, the address in its 16 byte form and the encoded public
      key are kept as bytes; a packet without a key has none. */
  datatype HandshakeFields = HandshakeFields(
    info: Uint32, timeStamp: Uint32, destination: Uint32,
    rudpVersion: Uint32, socketType: Uint32, initialSequenceNumber: Uint32, maximumPacketSize: Uint32,
    maximumFlowWindowSize: Uint32, connectionType: Uint32, connectionReason: Uint32, socketId: Uint32,
    nodeId: seq<Byte>, synCookie: Uint32, requestNatDetectionPort: bool, natDetectionPort: Uint16,
    address: seq<Byte>, port: Uint16, key: seq<Byte>)
  {
    predicate Valid() { |nodeId| == 64 && |address| == 16 }

    function Header(): Control { Control(HANDSHAKE_TYPE, info, timeStamp, destination) }

    function Words(): (words: seq<Uint32>)
      ensures |words| == 8
    {
      [rudpVersion, socketType, initialSequenceNumber, maximumPacketSize, maximumFlowWindowSize, connectionType,
       connectionReason, socketId]
    }
  }

  function Bytes16(n: Uint16): (b: seq<Byte>)
    ensures |b| == 2
  {
    [n / 0x100, n % 0x100]
  }

  function Read16(b: seq<Byte>, i: nat): Uint16
    requires i + 2 <= |b|
  {
    var high: nat, low: nat := b[i], b[i + 1];
    high * 0x100 + low
  }

  /** Everything before the node id, before the cookie, and before the detection port. */
  function HandshakeFront(p: HandshakeFields): (b: seq<Byte>)
    ensures |b| == 48
  {
    ControlBytes(p.Header()) + WordBytes(p.Words(), 8)
  }

  function HandshakeMiddle(p: HandshakeFields): (b: seq<Byte>)
    requires p.Valid()
    ensures |b| == 117
  {
    HandshakeFront(p) + p.nodeId + Bytes32(p.synCookie) + [Flag(p.requestNatDetectionPort, 0x80)]
  }

  function HandshakeBytes(p: HandshakeFields): (b: seq<Byte>)
    requires p.Valid()
    ensures |b| == HANDSHAKE_MINIMUM + |p.key|
  {
    HandshakeMiddle(p) + Bytes16(p.natDetectionPort) + p.address + Bytes16(p.port) + p.key
  }

  function DecodeHandshake(b: seq<Byte>): Option<HandshakeFields> {
    if !IsControl(b, HANDSHAKE_TYPE) || |b| < HANDSHAKE_MINIMUM then None
    else
      var c, w := DecodeControl(b), DecodeWords(b, 16, 8);
      Some(HandshakeFields(
        c.info, c.timeStamp, c.destination, w[0], w[1], w[2], w[3], w[4], w[5], w[6], w[7],
        b[48..112], Read32(b, 112), b[116] >= 0x80, Read16(b, 117),
        b[119..135], Read16(b, 135), b[137..]))
  }

  lemma {:induction false} DecodeWordsOfPrefix(a: seq<Byte>, b: seq<Byte>, at: nat, count: nat)
    requires a <= b && at + 4 * count <= |a|
    ensures DecodeWords(a, at, count) == DecodeWords(b, at, count)
  {
    if count > 0 {
      DecodeWordsOfPrefix(a, b, at, count - 1);
    }
  }

  /** What stands behind a prefix of known length. */
  lemma SliceAt(b: seq<Byte>, prefix: seq<Byte>, x: seq<Byte>)
    requires prefix + x <= b
    ensures b[|prefix|..|prefix| + |x|] == x
  {
    assert (prefix + x)[|prefix|..] == x;
  }

  lemma HandshakeFrontDecodes(p: HandshakeFields, b: seq<Byte>)
    requires HandshakeFront(p) <= b
    ensures IsControl(b, HANDSHAKE_TYPE) && DecodeControl(b) == p.Header() && DecodeWords(b, 16, 8) == p.Words()
    ensures forall kind :: 0 < kind < 0x8000 ==> !IsControl(b, kind)
  {
    var h := ControlBytes(p.Header());
    assert b == h + b[16..];
    ControlRoundTrip(p.Header(), b[16..]);
    WordsRoundTrip(h, p.Words());
    DecodeWordsOfPrefix(HandshakeFront(p), b, 16, 8);
  }

  lemma HandshakeMiddleDecodes(p: HandshakeFields, b: seq<Byte>)
    requires p.Valid() && HandshakeMiddle(p) <= b
    ensures b[48..112] == p.nodeId && Read32(b, 112) == p.synCookie && (b[116] >= 0x80 <==> p.requestNatDetectionPort)
  {
    var front := HandshakeFront(p);
    var cookie := front + p.nodeId;
    var flag := cookie + Bytes32(p.synCookie);
    assert HandshakeMiddle(p) == flag + [Flag(p.requestNatDetectionPort, 0x80)];
    SliceAt(b, front, p.nodeId);
    Read32At(cookie, p.synCookie, b[116..]);
    assert b == cookie + Bytes32(p.synCookie) + b[116..];
    SliceAt(b, flag, [Flag(p.requestNatDetectionPort, 0x80)]);
    assert b[116] == b[116..117][0];
  }

  lemma HandshakeEndDecodes(p: HandshakeFields)
    requires p.Valid()
    ensures var b := HandshakeBytes(p);
      && Read16(b, 117) == p.natDetectionPort && b[119..135] == p.address
      && Read16(b, 135) == p.port && b[137..] == p.key
  {
    var b, middle := HandshakeBytes(p), HandshakeMiddle(p);
    var detection, port := Bytes16(p.natDetectionPort), Bytes16(p.port);
    SliceAt(b, middle, detection);
    SliceAt(b, middle + detection, p.address);
    SliceAt(b, middle + detection + p.address, port);
    assert b[117..119][0] == b[117] && b[117..119][1] == b[118];
    assert b[135..137][0] == b[135] && b[135..137][1] == b[136];
  }

  lemma HandshakePrefixes(p: HandshakeFields)
    requires p.Valid()
    ensures HandshakeFront(p) <= HandshakeBytes(p) && HandshakeMiddle(p) <= HandshakeBytes(p)
  {
    assert HandshakeFront(p) <= HandshakeMiddle(p);
  }

  lemma HandshakeFieldsDecode(b: seq<Byte>, p: HandshakeFields)
    requires |b| >= HANDSHAKE_MINIMUM && IsControl(b, HANDSHAKE_TYPE)
    requires DecodeControl(b) == p.Header() && DecodeWords(b, 16, 8) == p.Words()
    requires b[48..112] == p.nodeId && Read32(b, 112) == p.synCookie && (b[116] >= 0x80 <==> p.requestNatDetectionPort)
    requires Read16(b, 117) == p.natDetectionPort && b[119..135] == p.address
    requires Read16(b, 135) == p.port && b[137..] == p.key
    ensures DecodeHandshake(b) == Some(p)
  {
  }

  lemma HandshakeRoundTrip(p: HandshakeFields)
    requires p.Valid()
    ensures DecodeHandshake(HandshakeBytes(p)) == Some(p)
    ensures forall kind :: 0 < kind < 0x8000 ==> !IsControl(HandshakeBytes(p), kind)
  {
    var b := HandshakeBytes(p);
    HandshakePrefixes(p);
    HandshakeFrontDecodes(p, b);
    HandshakeMiddleDecodes(p, b);
    HandshakeEndDecodes(p);
    HandshakeFieldsDecode(b, p);
  }

  // ---- Dispatch ----

  /** What Socket::HandleReceiveFrom takes a datagram for. */
  datatype Dispatched =
    | Data(data: DataPacket)
    | Ack(ack: AckPacket)
    | AckOfAck(control: Control)
    | NegativeAck(negative: NegativeAckPacket)
    | Keepalive(control: Control)
    | Handshake(handshake: HandshakeFields)
    | Shutdown(control: Control)
    | Invalid

  function Dispatch(b: seq<Byte>): Dispatched {
    if DecodeData(b).Some? then Data(DecodeData(b).value)
    else if DecodeAck(b).Some? then Ack(DecodeAck(b).value)
    else if IsControl(b, ACK_OF_ACK_TYPE) then AckOfAck(DecodeControl(b))
    else if DecodeNegativeAck(b).Some? then NegativeAck(DecodeNegativeAck(b).value)
    else if IsControl(b, KEEPALIVE_TYPE) && |b| == 16 then Keepalive(DecodeControl(b))
    else if DecodeHandshake(b).Some? then Handshake(DecodeHandshake(b).value)
    else if IsControl(b, SHUTDOWN_TYPE) && |b| == 16 then Shutdown(DecodeControl(b))
    else Invalid
  }

  /** A packet that an encoder accepts. */
  predicate Encodable(d: Dispatched) {
    match d
    case Data(p) => p.messageNumber <= 0x1fff_ffff
    case Ack(p) => AckEncodable(p)
    case AckOfAck(c) => c.kind == ACK_OF_ACK_TYPE
    case NegativeAck(p) => p.words != []
    case Keepalive(c) => c.kind == KEEPALIVE_TYPE
    case Shutdown(c) => c.kind == SHUTDOWN_TYPE
    case Handshake(p) => p.Valid()
    case Invalid => false
  }

  function EncodePacket(d: Dispatched): seq<Byte>
    requires Encodable(d)
  {
    match d
    case Data(p) => DataBytes(p)
    case Ack(p) => AckBytes(p)
    case AckOfAck(c) => ControlBytes(c)
    case NegativeAck(p) => NegativeAckBytes(p)
    case Keepalive(c) => ControlBytes(c)
    case Handshake(p) => HandshakeBytes(p)
    case Shutdown(c) => ControlBytes(c)
  }

  lemma NotData(b: seq<Byte>, kind: nat)
    requires IsControl(b, kind)
    ensures DecodeData(b) == None
  {
  }

  /** The chain of decoders picks the kind that was encoded and recovers every field. */
  lemma DispatchRoundTrip(d: Dispatched)
    requires Encodable(d)
    ensures Dispatch(EncodePacket(d)) == d
  {
    var b := EncodePacket(d);
    match d
    case Data(p) => DataRoundTrip(p);
    case Ack(p) =>
      AckRoundTrip(p);
      NotData(b, ACK_TYPE);
    case NegativeAck(p) =>
      NegativeAckRoundTrip(p);
      ControlRoundTrip(NegativeAckHeader(p), WordBytes(p.words, |p.words|));
    case AckOfAck(c) => HeaderOnly(c);
    case Keepalive(c) => HeaderOnly(c);
    case Handshake(p) =>
      HandshakeRoundTrip(p);
      NotData(b, HANDSHAKE_TYPE);
    case Shutdown(c) => HeaderOnly(c);
  }

  lemma HeaderOnly(c: Control)
    requires c.kind < 0x8000
    ensures IsControl(ControlBytes(c), c.kind) && DecodeControl(ControlBytes(c)) == c
    ensures forall kind :: 0 <= kind < 0x8000 && kind != c.kind ==> !IsControl(ControlBytes(c), kind)
  {
    ControlRoundTrip(c, []);
    assert ControlBytes(c) + [] == ControlBytes(c);
  }
}

/** The encoders and decoders in their own form: they write into and read from byte buffers. */
module Codecs {
  import opened SequenceNumbers
  import opened Packets
  import opened CodecSpec
  import opened WireLayouts

  /** Replaces the bytes of s from position `at` on. */
  function Overwrite(s: seq<Byte>, at: nat, b: seq<Byte>): seq<Byte>
    requires at + |b| <= |s|
  {
    s[..at] + b + s[at + |b|..]
  }

  method EncodeUint32(n: Uint32, buffer: array<Byte>, at: nat)
    requires at + 4 <= buffer.Length
    modifies buffer
    ensures buffer[..] == Overwrite(old(buffer[..]), at, Bytes32(n))
  {
    buffer[at] := n / 0x100_0000 % 0x100;
    buffer[at + 1] := n / 0x1_0000 % 0x100;
    buffer[at + 2] := n / 0x100 % 0x100;
    buffer[at + 3] := n % 0x100;
  }

  method DecodeUint32(b: seq<Byte>, at: nat) returns (n: Uint32)
    requires at + 4 <= |b|
    ensures n == Read32(b, at)
  {
    n := b[at];
    n := n * 0x100 + b[at + 1];
    n := n * 0x100 + b[at + 2];
    n := n * 0x100 + b[at + 3];
  }

  method EncodeBase(c: Control, buffer: array<Byte>) returns (size: nat)
    requires c.kind < 0x8000
    modifies buffer
    ensures buffer.Length < 16 ==> size == 0 && buffer[..] == old(buffer[..])
    ensures buffer.Length >= 16 ==> size == 16 && buffer[..] == ControlBytes(c) + old(buffer[..])[16..]
  {
    if buffer.Length < 16 {
      return 0;
    }
    ghost var was := buffer[..];
    buffer[0] := 0x80 + c.kind / 0x100 % 0x80;
    buffer[1] := c.kind % 0x100;
    buffer[2], buffer[3] := 0, 0;
    EncodeUint32(c.info, buffer, 4);
    EncodeUint32(c.timeStamp, buffer, 8);
    EncodeUint32(c.destination, buffer, 12);
    return 16;
  }

  /** The k-th word after the header. */
  function WordSlot(s: seq<Byte>, k: nat): seq<Byte>
    requires 20 + 4 * k <= |s|
  {
    s[16 + 4 * k..20 + 4 * k]
  }

  /** The words from position `from` up to `to` stand in the buffer. */
  ghost predicate Written(s: seq<Byte>, words: seq<Uint32>, from: nat, to: nat) {
    && from <= to <= |words| && 16 + 4 * to <= |s|
    && forall k :: from <= k < to ==> WordSlot(s, k) == Bytes32(words[k])
  }

  lemma OverwriteSlot(s: seq<Byte>, k: nat, b: seq<Byte>, j: nat)
    requires |b| == 4 && 20 + 4 * k <= |s| && 20 + 4 * j <= |s|
    ensures WordSlot(Overwrite(s, 16 + 4 * k, b), j) == if j == k then b else WordSlot(s, j)
  {
    var s' := Overwrite(s, 16 + 4 * k, b);
    assert j < k ==> 20 + 4 * j <= 16 + 4 * k;
    assert j > k ==> 16 + 4 * j >= 20 + 4 * k;
  }

  /** Writing word k next to words that are written already. */
  lemma WrittenGrows(s: seq<Byte>, words: seq<Uint32>, from: nat, to: nat, k: nat)
    requires Written(s, words, from, to) && k < |words| && 20 + 4 * k <= |s|
    requires k == to || k + 1 == from
    ensures Written(Overwrite(s, 16 + 4 * k, Bytes32(words[k])), words, if k == to then from else k, if k == to then to + 1 else to)
    ensures Overwrite(s, 16 + 4 * k, Bytes32(words[k]))[..16] == s[..16]
  {
    var s' := Overwrite(s, 16 + 4 * k, Bytes32(words[k]));
    forall j | (if k == to then from else k) <= j < (if k == to then to + 1 else to) ensures WordSlot(s', j) == Bytes32(words[j]) {
      OverwriteSlot(s, k, Bytes32(words[k]), j);
    }
  }

  lemma {:induction false} WrittenIs(s: seq<Byte>, words: seq<Uint32>, k: nat)
    requires Written(s, words, 0, |words|) && k <= |words|
    ensures s[16..16 + 4 * k] == WordBytes(words, k)
  {
    if k > 0 {
      WrittenIs(s, words, k - 1);
      assert s[16..16 + 4 * k] == s[16..16 + 4 * (k - 1)] + WordSlot(s, k - 1);
    }
  }

  lemma HeaderAndWords(s: seq<Byte>, c: Control, words: seq<Uint32>)
    requires Written(s, words, 0, |words|) && s[..16] == ControlBytes(c)
    ensures s[..16 + 4 * |words|] == ControlBytes(c) + WordBytes(words, |words|)
  {
    WrittenIs(s, words, |words|);
    SplitAt(s, 16, 16 + 4 * |words|);
  }

  lemma SplitAt(s: seq<Byte>, a: nat, b: nat)
    requires a <= b <= |s|
    ensures s[..b] == s[..a] + s[a..b]
  {
  }

  method EncodeWord(buffer: array<Byte>, ghost words: seq<Uint32>, n: Uint32, ghost from: nat, ghost to: nat, k: nat)
    requires Written(buffer[..], words, from, to) && k < |words| && n == words[k] && 20 + 4 * k <= buffer.Length
    requires k == to || k + 1 == from
    modifies buffer
    ensures Written(buffer[..], words, if k == to then from else k, if k == to then to + 1 else to)
    ensures buffer[..16] == old(buffer[..16])
  {
    WrittenGrows(buffer[..], words, from, to, k);
    ghost var s := buffer[..];
    EncodeUint32(n, buffer, 16 + 4 * k);
    assert buffer[..16] == buffer[..][..16] && s[..16] == old(buffer[..16]);
  }

  /** The count goes in last, at the place kept for it in front of the ranges. */
  method EncodeAck(p: AckPacket, buffer: array<Byte>) returns (size: nat)
    requires AckEncodable(p)
    modifies buffer
    ensures buffer.Length < p.RequiredBytes() ==> size == 0 && buffer[..] == old(buffer[..])
    ensures buffer.Length >= p.RequiredBytes() ==>
      size == p.RequiredBytes() && buffer[..size] == AckBytes(p) && AckLaidOut(buffer[..size], p)
  {
    if buffer.Length < p.RequiredBytes() {
      return 0;
    }
    var _ := EncodeBase(AckHeader(p), buffer);
    ghost var words := AckWords(p);
    ghost var header := ControlBytes(AckHeader(p));
    assert buffer[..16] == header;
    EncodeRanges(p, buffer, words);
    var end := 1 + 2 * |p.ranges|;
    EncodeWord(buffer, words, 2 * |p.ranges|, 1, end, 0);
    if p.info.Some? {
      AckWordsParts(p);
      EncodeInfo(p.info.value, buffer, words, end);
    }
    HeaderAndWords(buffer[..], AckHeader(p), words);
    size := p.RequiredBytes();
    assert buffer[..size] == buffer[..][..16 + 4 * |words|];
    AckLayout(p);
  }

  method EncodeRanges(p: AckPacket, buffer: array<Byte>, ghost words: seq<Uint32>)
    requires AckEncodable(p) && words == AckWords(p) && buffer.Length >= p.RequiredBytes()
    modifies buffer
    ensures Written(buffer[..], words, 1, 1 + 2 * |p.ranges|) && buffer[..16] == old(buffer[..16])
  {
    var i := 0;
    while i < |p.ranges|
      invariant 0 <= i <= |p.ranges|
      invariant Written(buffer[..], words, 1, 1 + 2 * i) && buffer[..16] == old(buffer[..16])
    {
      AckWordIs(p, i);
      EncodeWord(buffer, words, MODULUS + p.ranges[i].first, 1, 1 + 2 * i, 1 + 2 * i);
      EncodeWord(buffer, words, p.ranges[i].last, 1, 2 + 2 * i, 2 + 2 * i);
      i := i + 1;
    }
  }

  method EncodeInfo(info: AckInfo, buffer: array<Byte>, ghost words: seq<Uint32>, end: nat)
    requires |words| == end + 5 && words[end..] == InfoWords(Some(info)) && 16 + 4 * |words| <= buffer.Length
    requires Written(buffer[..], words, 0, end)
    modifies buffer
    ensures Written(buffer[..], words, 0, |words|) && buffer[..16] == old(buffer[..16])
  {
    assert forall j :: 0 <= j < 5 ==> words[end + j] == words[end..][j];
    EncodeWord(buffer, words, info.roundTripTime, 0, end, end);
    EncodeWord(buffer, words, info.roundTripTimeVariance, 0, end + 1, end + 1);
    EncodeWord(buffer, words, info.availableBufferSize, 0, end + 2, end + 2);
    EncodeWord(buffer, words, info.packetsReceivingRate, 0, end + 3, end + 3);
    EncodeWord(buffer, words, info.estimatedLinkCapacity, 0, end + 4, end + 4);
  }

  lemma AckWordIs(p: AckPacket, i: nat)
    requires AckEncodable(p) && i < |p.ranges|
    ensures AckWords(p)[1 + 2 * i] == MODULUS + p.ranges[i].first && AckWords(p)[2 + 2 * i] == p.ranges[i].last
  {
    RangeWordAt(p.ranges, |p.ranges|, i);
  }

  method EncodeNegativeAck(p: NegativeAckPacket, buffer: array<Byte>) returns (size: nat)
    modifies buffer
    ensures buffer.Length < 16 + 4 * |p.words| ==> size == 0 && buffer[..] == old(buffer[..])
    ensures buffer.Length >= 16 + 4 * |p.words| ==>
      size == 16 + 4 * |p.words| && buffer[..size] == NegativeAckBytes(p) && NegativeAckLaidOut(buffer[..size], p)
  {
    if buffer.Length < 16 + 4 * |p.words| {
      return 0;
    }
    var _ := EncodeBase(NegativeAckHeader(p), buffer);
    ghost var header := ControlBytes(NegativeAckHeader(p));
    assert buffer[..16] == header;
    var i := 0;
    while i < |p.words|
      invariant 0 <= i <= |p.words| && Written(buffer[..], p.words, 0, i) && buffer[..16] == header
    {
      EncodeWord(buffer, p.words, p.words[i], 0, i, i);
      i := i + 1;
    }
    HeaderAndWords(buffer[..], NegativeAckHeader(p), p.words);
    size := 16 + 4 * |p.words|;
    assert buffer[..size] == buffer[..][..16 + 4 * |p.words|];
    NegativeAckLayout(p);
  }

  function Prepend(ranges: seq<Range>, rest: Option<seq<Range>>): Option<seq<Range>> {
    if rest == None then None else Some(ranges + rest.value)
  }

  lemma BodyWordAt(b: seq<Byte>, i: nat)
    requires |b| >= 16 && 20 + 4 * i <= |b|
    ensures BodyWords(b)[i] == Read32(b, 16 + 4 * i)
  {
    DecodedWordAt(b, 16, (|b| - 16) / 4, i);
  }

  /** The decoding loop of AckPacket::Decode, over the words of the ranges. */
  method DecodeAckRanges(b: seq<Byte>, count: nat) returns (ranges: Option<seq<Range>>)
    requires 20 + 4 * count <= |b|
    ensures ranges == DecodeRanges(BodyWords(b)[1..1 + count], 0)
  {
    ghost var words := BodyWords(b)[1..1 + count];
    var found: seq<Range> := [];
    var i := 0;
    assert forall r: seq<Range> :: found + r == r;
    while i < count
      invariant 0 <= i <= count
      invariant DecodeRanges(words, 0) == Prepend(found, DecodeRanges(words, i))
    {
      BodyWordAt(b, i + 1);
      var first := DecodeUint32(b, 20 + 4 * i);
      assert words[i] == first;
      var second := first;
      ghost var start := i;
      if first >= MODULUS {
        i := i + 1;
        if i >= count {
          return None;
        }
        BodyWordAt(b, i + 1);
        first := first - MODULUS;
        second := DecodeUint32(b, 20 + 4 * i);
      }
      PrependMore(found, Range(first, second), DecodeRanges(words, i + 1));
      found := found + [Range(first, second)];
      i := i + 1;
    }
    assert found + [] == found;
    return Some(found);
  }

  lemma PrependMore(found: seq<Range>, r: Range, rest: Option<seq<Range>>)
    ensures Prepend(found, Prepend([r], rest)) == Prepend(found + [r], rest)
  {
    if rest != None {
      assert found + ([r] + rest.value) == found + [r] + rest.value;
    }
  }

  method DecodeAckPacket(b: seq<Byte>) returns (p: Option<AckPacket>)
    ensures p == DecodeAck(b)
  {
    if !IsControl(b, ACK_TYPE) || |b| < 20 {
      return None;
    }
    var word := DecodeUint32(b, 16);
    var count: nat := word;
    BodyWordAt(b, 0);
    if !(|b| == 20 + count * 4 || |b| == 20 + count * 4 + 20) {
      return None;
    }
    var c := DecodeControl(b);
    var ranges := DecodeAckRanges(b, count);
    if ranges == None {
      return None;
    }
    var info: Option<AckInfo> := None;
    if |b| - (20 + count * 4) == 20 {
      var at := 1 + count;
      BodyWordAt(b, at);
      BodyWordAt(b, at + 1);
      BodyWordAt(b, at + 2);
      BodyWordAt(b, at + 3);
      BodyWordAt(b, at + 4);
      var rtt := DecodeUint32(b, 16 + 4 * at);
      var variance := DecodeUint32(b, 16 + 4 * (at + 1));
      var available := DecodeUint32(b, 16 + 4 * (at + 2));
      var rate := DecodeUint32(b, 16 + 4 * (at + 3));
      var capacity := DecodeUint32(b, 16 + 4 * (at + 4));
      info := Some(AckInfo(rtt, variance, available, rate, capacity));
    }
    return Some(AckPacket(c.info, c.timeStamp, c.destination, ranges.value, info));
  }

  /** DataPacket::Encode writes the header only; the payload is sent from where it is. */
  method EncodeData(p: DataPacket, buffer: array<Byte>) returns (size: nat)
    requires p.messageNumber <= 0x1fff_ffff
    modifies buffer
    ensures buffer.Length < 16 + |p.data| ==> size == 0 && buffer[..] == old(buffer[..])
    ensures buffer.Length >= 16 + |p.data| ==>
      size == 16 + |p.data| && buffer[..16] + p.data == DataBytes(p) && DataLaidOut(buffer[..16] + p.data, p)
  {
    if buffer.Length < 16 + |p.data| {
      return 0;
    }
    var n, m := p.sequenceNumber, p.messageNumber;
    buffer[0] := n / 0x100_0000 % 0x80;
    buffer[1] := n / 0x1_0000 % 0x100;
    buffer[2] := n / 0x100 % 0x100;
    buffer[3] := n % 0x100;
    buffer[4] := m / 0x100_0000 % 0x20 + (if p.firstInMessage then 0x80 else 0) +
                 (if p.lastInMessage then 0x40 else 0) + (if p.inOrder then 0x20 else 0);
    buffer[5] := m / 0x1_0000 % 0x100;
    buffer[6] := m / 0x100 % 0x100;
    buffer[7] := m % 0x100;
    assert buffer[..8] == Bytes32(n) + MessageBytes(m, Flags(p));
    EncodeUint32(p.timeStamp, buffer, 8);
    EncodeUint32(p.destination, buffer, 12);
    size := 16 + |p.data|;
    DataLayout(p);
  }

  // ---- Packets that are a header only ----

  method EncodeAckOfAck(ackNumber: Uint32, timeStamp: Uint32, destination: Uint32, buffer: array<Byte>) returns (size: nat)
    modifies buffer
    ensures buffer.Length < 16 ==> size == 0 && buffer[..] == old(buffer[..])
    ensures buffer.Length >= 16 ==> size == 16 && HeaderIs(buffer[..16], 6, ackNumber, timeStamp, destination)
  {
    size := EncodeBase(Control(ACK_OF_ACK_TYPE, ackNumber, timeStamp, destination), buffer);
    BareLayout(Control(ACK_OF_ACK_TYPE, ackNumber, timeStamp, destination));
  }

  method EncodeKeepalive(number: Uint32, timeStamp: Uint32, destination: Uint32, buffer: array<Byte>) returns (size: nat)
    modifies buffer
    ensures buffer.Length < 16 ==> size == 0 && buffer[..] == old(buffer[..])
    ensures buffer.Length >= 16 ==> size == 16 && HeaderIs(buffer[..16], 1, number, timeStamp, destination)
  {
    size := EncodeBase(Control(KEEPALIVE_TYPE, number, timeStamp, destination), buffer);
    BareLayout(Control(KEEPALIVE_TYPE, number, timeStamp, destination));
  }

  method EncodeShutdown(info: Uint32, timeStamp: Uint32, destination: Uint32, buffer: array<Byte>) returns (size: nat)
    modifies buffer
    ensures buffer.Length < 16 ==> size == 0 && buffer[..] == old(buffer[..])
    ensures buffer.Length >= 16 ==> size == 16 && HeaderIs(buffer[..16], 5, info, timeStamp, destination)
  {
    size := EncodeBase(Control(SHUTDOWN_TYPE, info, timeStamp, destination), buffer);
    BareLayout(Control(SHUTDOWN_TYPE, info, timeStamp, destination));
  }

  // ---- Handshakes ----

  /** Bytes that are written behind a prefix make it longer. */
  lemma OverwriteExtends(s: seq<Byte>, prefix: seq<Byte>, b: seq<Byte>)
    requires prefix <= s && |prefix| + |b| <= |s|
    ensures prefix + b <= Overwrite(s, |prefix|, b)
  {
  }

  /** Copies bytes behind what is in the buffer already. */
  method CopyBytes(b: seq<Byte>, buffer: array<Byte>, at: nat, ghost prefix: seq<Byte>)
    requires at == |prefix| && at + |b| <= buffer.Length && prefix <= buffer[..]
    modifies buffer
    ensures prefix + b <= buffer[..]
  {
    OverwriteExtends(buffer[..], prefix, b);
    ghost var goal := Overwrite(buffer[..], at, b);
    forall i | 0 <= i < |b| {
      buffer[at + i] := b[i];
    }
    assert buffer[..] == goal;
  }

  /** The k-th word of a handshake, behind those before it. */
  method EncodeField(n: Uint32, buffer: array<Byte>, ghost p: HandshakeFields, k: nat)
    requires k < 8 && n == p.Words()[k] && 20 + 4 * k <= buffer.Length
    requires ControlBytes(p.Header()) + WordBytes(p.Words(), k) <= buffer[..]
    modifies buffer
    ensures ControlBytes(p.Header()) + WordBytes(p.Words(), k + 1) <= buffer[..]
  {
    ghost var prefix := ControlBytes(p.Header()) + WordBytes(p.Words(), k);
    OverwriteExtends(buffer[..], prefix, Bytes32(n));
    EncodeUint32(n, buffer, 16 + 4 * k);
    assert prefix + Bytes32(n) == ControlBytes(p.Header()) + WordBytes(p.Words(), k + 1);
  }

  method EncodeFront(p: HandshakeFields, buffer: array<Byte>)
    requires buffer.Length >= 48
    modifies buffer
    ensures HandshakeFront(p) <= buffer[..]
  {
    var _ := EncodeBase(p.Header(), buffer);
    assert WordBytes(p.Words(), 0) == [];
    EncodeField(p.rudpVersion, buffer, p, 0);
    EncodeField(p.socketType, buffer, p, 1);
    EncodeField(p.initialSequenceNumber, buffer, p, 2);
    EncodeField(p.maximumPacketSize, buffer, p, 3);
    EncodeField(p.maximumFlowWindowSize, buffer, p, 4);
    EncodeField(p.connectionType, buffer, p, 5);
    EncodeField(p.connectionReason, buffer, p, 6);
    EncodeField(p.socketId, buffer, p, 7);
  }

  method EncodeMiddle(p: HandshakeFields, buffer: array<Byte>)
    requires p.Valid() && buffer.Length >= 117
    modifies buffer
    ensures HandshakeMiddle(p) <= buffer[..]
  {
    EncodeFront(p, buffer);
    ghost var front := HandshakeFront(p);
    CopyBytes(p.nodeId, buffer, 48, front);
    OverwriteExtends(buffer[..], front + p.nodeId, Bytes32(p.synCookie));
    EncodeUint32(p.synCookie, buffer, 112);
    CopyBytes([if p.requestNatDetectionPort then 0x80 else 0], buffer, 116, front + p.nodeId + Bytes32(p.synCookie));
  }

  method EncodePort(port: Uint16, buffer: array<Byte>, at: nat, ghost prefix: seq<Byte>)
    requires at == |prefix| && at + 2 <= buffer.Length && prefix <= buffer[..]
    modifies buffer
    ensures prefix + Bytes16(port) <= buffer[..]
  {
    CopyBytes([port / 0x100, port % 0x100], buffer, at, prefix);
  }

  method EncodeHandshake(p: HandshakeFields, buffer: array<Byte>) returns (size: nat)
    requires p.Valid()
    modifies buffer
    ensures buffer.Length < 137 + |p.key| ==> size == 0 && buffer[..] == old(buffer[..])
    ensures buffer.Length >= 137 + |p.key| ==>
      size == 137 + |p.key| && buffer[..size] == HandshakeBytes(p) && HandshakeLaidOut(buffer[..size], p)
  {
    if buffer.Length < 137 + |p.key| {
      return 0;
    }
    EncodeMiddle(p, buffer);
    ghost var middle := HandshakeMiddle(p);
    EncodePort(p.natDetectionPort, buffer, 117, middle);
    CopyBytes(p.address, buffer, 119, middle + Bytes16(p.natDetectionPort));
    EncodePort(p.port, buffer, 135, middle + Bytes16(p.natDetectionPort) + p.address);
    CopyBytes(p.key, buffer, 137, middle + Bytes16(p.natDetectionPort) + p.address + Bytes16(p.port));
    size := 137 + |p.key|;
    assert HandshakeBytes(p) <= buffer[..];
    HandshakeLayout(p);
  }
}

/** The sequence numbers that an ack and a negative ack list. */
module PacketNumbers {
  import opened SequenceNumbers
  import opened Packets
  import opened CodecSpec

  /** What has been added to a packet: single numbers and ranges that may wrap. */
  datatype Addition = Single(n: SeqNum) | Span(first: SeqNum, last: SeqNum) {
    predicate Has(n: SeqNum) {
      match this
      case Single(m) => n == m
      case Span(first, last) => InCyclicRange(first, last, n)
    }
  }

  ghost predicate Added(additions: seq<Addition>, n: SeqNum) {
    exists i :: 0 <= i < |additions| && additions[i].Has(n)
  }

  /** A wrapping range becomes two ranges in an ack. */
  function RangesFor(a: Addition): seq<Range> {
    match a
    case Single(n) => [Range(n, n)]
    case Span(first, last) =>
      if last >= first then [Range(first, last)] else [Range(first, MAX_SEQUENCE_NUMBER), Range(0, last)]
  }

  /** In a negative ack it becomes two words, the first with its top bit set. */
  function WordsFor(a: Addition): seq<Uint32> {
    match a
    case Single(n) => [n]
    case Span(first, last) => [MODULUS + first, last]
  }

  function AllRanges(additions: seq<Addition>, k: nat): seq<Range>
    requires k <= |additions|
  {
    if k == 0 then [] else AllRanges(additions, k - 1) + RangesFor(additions[k - 1])
  }

  function AllWords(additions: seq<Addition>, k: nat): seq<Uint32>
    requires k <= |additions|
  {
    if k == 0 then [] else AllWords(additions, k - 1) + WordsFor(additions[k - 1])
  }

  lemma CoversConcat(a: seq<Range>, b: seq<Range>, n: nat)
    ensures Covers(a + b, n) <==> Covers(a, n) || Covers(b, n)
  {
    var c := a + b;
    if Covers(a, n) {
      var i :| 0 <= i < |a| && a[i].first <= n <= a[i].last;
      assert c[i] == a[i];
    }
    if Covers(b, n) {
      var i :| 0 <= i < |b| && b[i].first <= n <= b[i].last;
      assert c[|a| + i] == b[i];
    }
  }

  lemma RangesForCover(a: Addition, n: SeqNum)
    ensures Covers(RangesFor(a), n) <==> a.Has(n)
  {
    var ranges := RangesFor(a);
    assert |ranges| > 0;
    assert Covers(ranges, n) <==>
      (ranges[0].first <= n <= ranges[0].last || (|ranges| > 1 && ranges[1].first <= n <= ranges[1].last));
  }

  lemma AddedExtends(additions: seq<Addition>, k: nat, n: SeqNum)
    requires k < |additions|
    ensures Added(additions[..k + 1], n) <==> Added(additions[..k], n) || additions[k].Has(n)
  {
    var a, b := additions[..k], additions[..k + 1];
    assert b == a + [additions[k]];
    if Added(a, n) {
      var i :| 0 <= i < |a| && a[i].Has(n);
      assert b[i].Has(n);
    }
    if additions[k].Has(n) {
      assert b[k].Has(n);
    }
  }

  /** An ack lists exactly the numbers that were added to it. */
  lemma {:induction false} AckListsAdditions(additions: seq<Addition>, k: nat, n: SeqNum)
    requires k <= |additions|
    ensures Covers(AllRanges(additions, k), n) <==> Added(additions[..k], n)
  {
    if k > 0 {
      AckListsAdditions(additions, k - 1, n);
      CoversConcat(AllRanges(additions, k - 1), RangesFor(additions[k - 1]), n);
      RangesForCover(additions[k - 1], n);
      AddedExtends(additions, k - 1, n);
    }
  }

  /** The last word of a list does not open a range. */
  predicate Closed(words: seq<Uint32>) {
    words != [] ==> words[|words| - 1] < MODULUS
  }

  function Packet(words: seq<Uint32>): NegativeAckPacket { NegativeAckPacket(0, 0, 0, words) }

  /** What the scan finds in words followed by more words. */
  lemma ListsConcat(a: seq<Uint32>, b: seq<Uint32>, n: SeqNum)
    requires Closed(a)
    ensures Packet(a + b).Lists(n) <==> Packet(a).Lists(n) || Packet(b).Lists(n)
  {
    var p, q, r := Packet(a + b), Packet(a), Packet(b);
    forall i | 0 <= i < |a| ensures p.Matches(i, n) <==> q.Matches(i, n) {
    }
    forall i | 0 <= i < |b| ensures p.Matches(|a| + i, n) <==> r.Matches(i, n) {
    }
    if p.Lists(n) {
      var i :| 0 <= i < |a + b| && p.Matches(i, n);
      if i < |a| {
        assert q.Matches(i, n);
      } else {
        assert r.Matches(i - |a|, n);
      }
    }
  }

  /** The scan visits the end word of a range once more as a single number, which the range has anyway. */
  lemma WordsForList(a: Addition, n: SeqNum)
    ensures Packet(WordsFor(a)).Lists(n) <==> a.Has(n)
  {
    var p := Packet(WordsFor(a));
    match a
    case Single(m) =>
      assert p.Matches(0, n) <==> m == n;
    case Span(first, last) =>
      assert p.Matches(0, n) <==> InCyclicRange(first, last, n);
      assert p.Matches(1, n) <==> last == n;
  }

  lemma {:induction false} AllWordsClosed(additions: seq<Addition>, k: nat)
    requires k <= |additions|
    ensures Closed(AllWords(additions, k))
  {
  }

  /** A negative ack lists exactly the numbers that were added to it. */
  lemma {:induction false} NegativeAckListsAdditions(additions: seq<Addition>, k: nat, n: SeqNum)
    requires k <= |additions|
    ensures Packet(AllWords(additions, k)).Lists(n) <==> Added(additions[..k], n)
  {
    if k > 0 {
      NegativeAckListsAdditions(additions, k - 1, n);
      AllWordsClosed(additions, k - 1);
      ListsConcat(AllWords(additions, k - 1), WordsFor(additions[k - 1]), n);
      WordsForList(additions[k - 1], n);
      AddedExtends(additions, k - 1, n);
    }
  }

  /** The two kinds of packet agree on what the same additions list, wrapping ranges included. */
  lemma AckAndNegativeAckAgree(additions: seq<Addition>, n: SeqNum)
    ensures Covers(AllRanges(additions, |additions|), n) <==> Packet(AllWords(additions, |additions|)).Lists(n)
  {
    AckListsAdditions(additions, |additions|, n);
    NegativeAckListsAdditions(additions, |additions|, n);
  }

  /** The sequence numbers of an AckPacket object. */
  class AckNumbers {
    var ranges: seq<Range>
    ghost var additions: seq<Addition>

    ghost predicate Valid()
      reads this
    {
      ranges == AllRanges(additions, |additions|)
    }

    constructor ()
      ensures Valid() && additions == []
    {
      ranges, additions := [], [];
    }

    method AddSequenceNumbers(first: SeqNum, last: SeqNum)
      requires Valid()
      modifies this
      ensures Valid() && additions == old(additions) + [Span(first, last)]
    {
      RangesPrefix(additions, Span(first, last), |additions|);
      if last >= first {
        ranges := ranges + [Range(first, last)];
      } else {
        ranges := ranges + [Range(first, MAX_SEQUENCE_NUMBER)];
        ranges := ranges + [Range(0, last)];
      }
      additions := additions + [Span(first, last)];
    }

    method ContainsSequenceNumber(n: SeqNum) returns (found: bool)
      requires Valid()
      ensures found <==> Added(additions, n)
    {
      AckListsAdditions(additions, |additions|, n);
      assert additions[..|additions|] == additions;
      var i := 0;
      while i < |ranges|
        invariant 0 <= i <= |ranges|
        invariant forall j :: 0 <= j < i ==> !(ranges[j].first <= n <= ranges[j].last)
      {
        if ranges[i].first <= n <= ranges[i].last {
          return true;
        }
        i := i + 1;
      }
      return false;
    }
  }

  lemma {:induction false} RangesPrefix(additions: seq<Addition>, a: Addition, k: nat)
    requires k <= |additions|
    ensures AllRanges(additions + [a], k) == AllRanges(additions, k)
  {
    if k > 0 {
      RangesPrefix(additions, a, k - 1);
    }
  }

  lemma {:induction false} WordsPrefix(additions: seq<Addition>, a: Addition, k: nat)
    requires k <= |additions|
    ensures AllWords(additions + [a], k) == AllWords(additions, k)
  {
    if k > 0 {
      WordsPrefix(additions, a, k - 1);
    }
  }

  /** The sequence numbers of a NegativeAckPacket object. */
  class NegativeAckNumbers {
    var words: seq<Uint32>
    ghost var additions: seq<Addition>

    ghost predicate Valid()
      reads this
    {
      words == AllWords(additions, |additions|)
    }

    constructor ()
      ensures Valid() && additions == []
    {
      words, additions := [], [];
    }

    method AddSequenceNumber(n: SeqNum)
      requires Valid()
      modifies this
      ensures Valid() && additions == old(additions) + [Single(n)]
    {
      WordsPrefix(additions, Single(n), |additions|);
      words := words + [n];
      additions := additions + [Single(n)];
    }

    method AddSequenceNumbers(first: SeqNum, last: SeqNum)
      requires Valid()
      modifies this
      ensures Valid() && additions == old(additions) + [Span(first, last)]
    {
      WordsPrefix(additions, Span(first, last), |additions|);
      words := words + [MODULUS + first];
      words := words + [last];
      additions := additions + [Span(first, last)];
    }

    method ContainsSequenceNumber(n: SeqNum) returns (found: bool)
      requires Valid()
      ensures found <==> Added(additions, n)
    {
      NegativeAckListsAdditions(additions, |additions|, n);
      assert additions[..|additions|] == additions;
      found := Scan(words, n);
    }
  }

  method Scan(words: seq<Uint32>, n: SeqNum) returns (found: bool)
    ensures found <==> Packet(words).Lists(n)
  {
    ghost var p := Packet(words);
    var i := 0;
    while i < |words|
      invariant 0 <= i <= |words|
      invariant forall j :: 0 <= j < i ==> !p.Matches(j, n)
    {
      if words[i] >= MODULUS && i + 1 < |words| {
        var first := words[i] % MODULUS;
        var last := words[i + 1] % MODULUS;
        if first <= last {
          if first <= n <= last {
            assert p.Matches(i, n);
            return true;
          }
        } else if first <= n || n <= last {
          assert p.Matches(i, n);
          return true;
        }
      } else if words[i] % MODULUS == n {
        assert p.Matches(i, n);
        return true;
      }
      i := i + 1;
    }
    return false;
  }
}
