/** Where every field of a packet stands on the wire, byte by byte. */
module WireLayouts {
  import opened SequenceNumbers
  import opened Packets
  import opened CodecSpec

  function Value(a: nat, b: nat, c: nat, d: nat): nat {
    a * 0x100_0000 + b * 0x1_0000 + c * 0x100 + d
  }

  /** The four bytes from position `at` on are n, most significant byte first. */
  predicate WordIs(b: seq<Byte>, at: nat, n: nat) {
    at + 4 <= |b| && Value(b[at], b[at + 1], b[at + 2], b[at + 3]) == n
  }

  /** The 16 bytes that every control packet begins with. */
  predicate HeaderIs(b: seq<Byte>, kind: nat, info: Uint32, timeStamp: Uint32, destination: Uint32) {
    && |b| >= 16 && b[0] == 0x80 && b[1] == kind && b[2] == 0 && b[3] == 0
    && WordIs(b, 4, info) && WordIs(b, 8, timeStamp) && WordIs(b, 12, destination)
  }

  /** An ack: the number of words that its ranges take, the two ends of each range, and five optional words. */
  ghost predicate AckLaidOut(b: seq<Byte>, p: AckPacket) {
    var n := |p.ranges|;
    && HeaderIs(b, 2, p.ackSequenceNumber, p.timeStamp, p.destination)
    && |b| == 20 + 8 * n + (if p.info.Some? then 20 else 0)
    && WordIs(b, 16, 2 * n)
    && (forall i :: 0 <= i < n ==>
          WordIs(b, 20 + 8 * i, p.ranges[i].first + 0x8000_0000) && WordIs(b, 24 + 8 * i, p.ranges[i].last))
    && (p.info.Some? ==> ReportIs(b, 20 + 8 * n, p.info.value))
  }

  ghost predicate ReportIs(b: seq<Byte>, at: nat, report: AckInfo) {
    && WordIs(b, at, report.roundTripTime)
    && WordIs(b, at + 4, report.roundTripTimeVariance)
    && WordIs(b, at + 8, report.availableBufferSize)
    && WordIs(b, at + 12, report.packetsReceivingRate)
    && WordIs(b, at + 16, report.estimatedLinkCapacity)
  }

  ghost predicate NegativeAckLaidOut(b: seq<Byte>, p: NegativeAckPacket) {
    && HeaderIs(b, 3, p.additionalInfo, p.timeStamp, p.destination)
    && |b| == 16 + 4 * |p.words|
    && forall i :: 0 <= i < |p.words| ==> WordIs(b, 16 + 4 * i, p.words[i])
  }

  /** A data packet: the top bit is clear and the three flags share a byte with the message number. */
  predicate DataLaidOut(b: seq<Byte>, p: DataPacket) {
    && |b| == 16 + |p.data| && b[0] < 0x80 && WordIs(b, 0, p.sequenceNumber)
    && b[4] / 0x80 == (if p.firstInMessage then 1 else 0)
    && b[4] / 0x40 % 2 == (if p.lastInMessage then 1 else 0)
    && b[4] / 0x20 % 2 == (if p.inOrder then 1 else 0)
    && Value(b[4] % 0x20, b[5], b[6], b[7]) == p.messageNumber
    && WordIs(b, 8, p.timeStamp) && WordIs(b, 12, p.destination) && b[16..] == p.data
  }

  predicate HandshakeLaidOut(b: seq<Byte>, p: HandshakeFields) {
    && |b| == 137 + |p.key| && HeaderIs(b, 0, p.info, p.timeStamp, p.destination)
    && WordIs(b, 16, p.rudpVersion) && WordIs(b, 20, p.socketType) && WordIs(b, 24, p.initialSequenceNumber)
    && WordIs(b, 28, p.maximumPacketSize) && WordIs(b, 32, p.maximumFlowWindowSize)
    && WordIs(b, 36, p.connectionType) && WordIs(b, 40, p.connectionReason) && WordIs(b, 44, p.socketId)
    && b[48..112] == p.nodeId && WordIs(b, 112, p.synCookie)
    && (b[116] >= 0x80 <==> p.requestNatDetectionPort) && Value(0, 0, b[117], b[118]) == p.natDetectionPort
    && b[119..135] == p.address && Value(0, 0, b[135], b[136]) == p.port && b[137..] == p.key
  }

  lemma JoinIsValue(a: nat, b: nat, c: nat, d: nat)
    ensures Join(a, b, c, d) == Value(a, b, c, d)
  {
  }

  lemma WordRead(b: seq<Byte>, at: nat)
    requires at + 4 <= |b|
    ensures WordIs(b, at, Read32(b, at))
  {
    JoinIsValue(b[at], b[at + 1], b[at + 2], b[at + 3]);
  }

  lemma HeaderLayout(c: Control, rest: seq<Byte>)
    requires c.kind < 0x100
    ensures HeaderIs(ControlBytes(c) + rest, c.kind, c.info, c.timeStamp, c.destination)
  {
    var b := ControlBytes(c) + rest;
    ControlRoundTrip(c, rest);
    assert b[0] == KindBytes(c.kind)[0] && b[1] == KindBytes(c.kind)[1];
    assert b[2] == KindBytes(c.kind)[2] && b[3] == KindBytes(c.kind)[3];
  }

  lemma WordBehind(prefix: seq<Byte>, words: seq<Uint32>, i: nat)
    requires |prefix| == 16 && i < |words|
    ensures WordIs(prefix + WordBytes(words, |words|), 16 + 4 * i, words[i])
  {
    var b := prefix + WordBytes(words, |words|);
    ReadBehind(b, prefix, words, i);
    WordRead(b, 16 + 4 * i);
  }

  lemma ReadBehind(b: seq<Byte>, prefix: seq<Byte>, words: seq<Uint32>, i: nat)
    requires |prefix| == 16 && i < |words| && b == prefix + WordBytes(words, |words|)
    ensures 20 + 4 * i <= |b| && Read32(b, 16 + 4 * i) == words[i]
  {
    assert b == b + [];
    WordAt(words, |words|, i, prefix, []);
  }

  lemma BodyLayout(c: Control, words: seq<Uint32>, i: nat)
    requires i < |words|
    ensures WordIs(ControlBytes(c) + WordBytes(words, |words|), 16 + 4 * i, words[i])
  {
    WordBehind(ControlBytes(c), words, i);
  }

  lemma NegativeAckLayout(p: NegativeAckPacket)
    ensures NegativeAckLaidOut(NegativeAckBytes(p), p)
  {
    HeaderLayout(NegativeAckHeader(p), WordBytes(p.words, |p.words|));
    forall i | 0 <= i < |p.words| ensures WordIs(NegativeAckBytes(p), 16 + 4 * i, p.words[i]) {
      BodyLayout(NegativeAckHeader(p), p.words, i);
    }
  }

  lemma AckWordAt(p: AckPacket, i: nat)
    requires AckEncodable(p) && i < |AckWords(p)|
    ensures WordIs(AckBytes(p), 16 + 4 * i, AckWords(p)[i])
  {
    BodyLayout(AckHeader(p), AckWords(p), i);
  }

  lemma AckRangeLayout(p: AckPacket, i: nat)
    requires AckEncodable(p) && i < |p.ranges|
    ensures WordIs(AckBytes(p), 20 + 8 * i, p.ranges[i].first + 0x8000_0000)
    ensures WordIs(AckBytes(p), 24 + 8 * i, p.ranges[i].last)
  {
    RangeWordAt(p.ranges, |p.ranges|, i);
    AckWordsParts(p);
    AckWordAt(p, 1 + 2 * i);
    AckWordAt(p, 2 + 2 * i);
  }

  lemma AckInfoLayout(p: AckPacket, i: nat)
    requires AckEncodable(p) && i < |InfoWords(p.info)|
    ensures WordIs(AckBytes(p), 20 + 8 * |p.ranges| + 4 * i, InfoWords(p.info)[i])
  {
    AckWordsParts(p);
    AckWordAt(p, 1 + 2 * |p.ranges| + i);
  }

  lemma ReportLayout(p: AckPacket)
    requires AckEncodable(p) && p.info.Some?
    ensures ReportIs(AckBytes(p), 20 + 8 * |p.ranges|, p.info.value)
  {
    AckInfoLayout(p, 0);
    AckInfoLayout(p, 1);
    AckInfoLayout(p, 2);
    AckInfoLayout(p, 3);
    AckInfoLayout(p, 4);
  }

  lemma AckLayout(p: AckPacket)
    requires AckEncodable(p)
    ensures AckLaidOut(AckBytes(p), p)
  {
    var b := AckBytes(p);
    HeaderLayout(AckHeader(p), WordBytes(AckWords(p), |AckWords(p)|));
    AckWordsParts(p);
    AckWordAt(p, 0);
    forall i | 0 <= i < |p.ranges|
      ensures WordIs(b, 20 + 8 * i, p.ranges[i].first + 0x8000_0000) && WordIs(b, 24 + 8 * i, p.ranges[i].last)
    {
      AckRangeLayout(p, i);
    }
    if p.info.Some? {
      ReportLayout(p);
    }
  }

  lemma Bits(x: nat)
    requires x < 0x100
    ensures x / 0x80 == if x >= 0x80 then 1 else 0
    ensures x / 0x40 % 2 == 0 || x / 0x40 % 2 == 1
    ensures x / 0x20 % 2 == 0 || x / 0x20 % 2 == 1
  {
  }

  /** What the decoder reads at these places. */
  lemma DecodedLayout(b: seq<Byte>, p: DataPacket, flags: nat)
    requires DecodeData(b) == Some(p) && flags == b[4]
    ensures DataLaidOut(b, p)
  {
    Bits(flags);
    assert b[0] % 0x80 == b[0];
    JoinIsValue(b[0], b[1], b[2], b[3]);
    JoinIsValue(flags % 0x20, b[5], b[6], b[7]);
    WordRead(b, 8);
    WordRead(b, 12);
  }

  lemma DataLayout(p: DataPacket)
    requires p.messageNumber <= 0x1fff_ffff
    ensures DataLaidOut(DataBytes(p), p)
  {
    DataRoundTrip(p);
    DecodedLayout(DataBytes(p), p, DataBytes(p)[4]);
  }

  lemma HandshakeWordLayout(p: HandshakeFields, b: seq<Byte>, i: nat)
    requires |b| >= 48 && DecodeWords(b, 16, 8) == p.Words() && i < 8
    ensures WordIs(b, 16 + 4 * i, p.Words()[i])
  {
    DecodedWordAt(b, 16, 8, i);
    WordRead(b, 16 + 4 * i);
  }

  lemma DecodedHandshakeLayout(b: seq<Byte>, p: HandshakeFields)
    requires DecodeHandshake(b) == Some(p) && HeaderIs(b, 0, p.info, p.timeStamp, p.destination)
    ensures HandshakeLaidOut(b, p)
  {
    HandshakeWordLayout(p, b, 0);
    HandshakeWordLayout(p, b, 1);
    HandshakeWordLayout(p, b, 2);
    HandshakeWordLayout(p, b, 3);
    HandshakeWordLayout(p, b, 4);
    HandshakeWordLayout(p, b, 5);
    HandshakeWordLayout(p, b, 6);
    HandshakeWordLayout(p, b, 7);
    WordRead(b, 112);
  }

  lemma HandshakeHeaderLayout(p: HandshakeFields)
    requires p.Valid()
    ensures HeaderIs(HandshakeBytes(p), 0, p.info, p.timeStamp, p.destination)
  {
    var b := HandshakeBytes(p);
    HandshakePrefixes(p);
    assert ControlBytes(p.Header()) <= HandshakeFront(p);
    assert b == ControlBytes(p.Header()) + b[16..];
    HeaderLayout(p.Header(), b[16..]);
  }

  lemma HandshakeLayout(p: HandshakeFields)
    requires p.Valid()
    ensures HandshakeLaidOut(HandshakeBytes(p), p)
  {
    HandshakeRoundTrip(p);
    HandshakeHeaderLayout(p);
    DecodedHandshakeLayout(HandshakeBytes(p), p);
  }

  /** The first two bytes tell what a packet is. */
  lemma KindsOnTheWire(d: Dispatched)
    requires Encodable(d)
    ensures var b := EncodePacket(d);
      && (d.Data? <==> b[0] < 0x80) && (!d.Data? ==> b[0] == 0x80)
      && (d.Ack? <==> b[0] == 0x80 && b[1] == 2) && (d.NegativeAck? <==> b[0] == 0x80 && b[1] == 3)
      && (d.AckOfAck? <==> b[0] == 0x80 && b[1] == 6) && (d.Keepalive? <==> b[0] == 0x80 && b[1] == 1)
      && (d.Handshake? <==> b[0] == 0x80 && b[1] == 0) && (d.Shutdown? <==> b[0] == 0x80 && b[1] == 5)
  {
    match d
    case Data(p) => DataLayout(p);
    case Ack(p) => AckLayout(p);
    case NegativeAck(p) => NegativeAckLayout(p);
    case Handshake(p) => HandshakeLayout(p);
    case AckOfAck(c) => BareLayout(c);
    case Keepalive(c) => BareLayout(c);
    case Shutdown(c) => BareLayout(c);
  }

  lemma BareLayout(c: Control)
    requires c.kind < 0x100
    ensures HeaderIs(ControlBytes(c), c.kind, c.info, c.timeStamp, c.destination)
  {
    HeaderLayout(c, []);
    assert ControlBytes(c) + [] == ControlBytes(c);
  }
}
