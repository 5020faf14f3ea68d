/**
 * The DP564 remote protocol's fixed frames, the conversion between decibels and
 * the volume byte, and the assembly of outbound commands and of the acknowledgements
 * the device is expected to send back.
 */
module Protocol {
  import opened Wrappers
  import opened Bytes

  // ---- Constant frames ------------------------------------------------------

  /** First handshake write after the connection is accepted. */
  const HandshakeMsg1: seq<byte> := [0x00, 0x00, 0x00, 0x05]
  /** Second handshake write. */
  const HandshakeMsg2: seq<byte> := [0x03]
  /** Preamble written before every typed command. */
  const PreCmd: seq<byte> := [0x00, 0x00, 0x00, 0x0a]
  const VolumeCmdPrefix: seq<byte> := [0x02, 0x03, 0x12, 0x00, 0x00]
  const VolumeAckPrefix: seq<byte> := [0x00, 0x00, 0x00, 0x0b, 0x04, 0x03, 0x12, 0x01, 0x02, 0x00]
  /** Unsolicited volume report, e.g. after the front-panel knob is turned. */
  const VolumeDeviceUpdatePrefix: seq<byte> := [0x00, 0x00, 0x00, 0x0b, 0x04, 0x03, 0x14, 0x01, 0x02, 0x00]
  const DimCmdPrefix: seq<byte> := [0x02, 0x05, 0x13, 0x00, 0x00]
  const DimOnPayload: byte := 0x01
  const DimOffPayload: byte := 0x00
  const DimAckPrefix: seq<byte> := [0x00, 0x00, 0x00, 0x0b, 0x04, 0x05, 0x13, 0x01, 0x02, 0x00]
  const SourceCmdPrefix: seq<byte> := [0x02, 0x03, 0x01, 0x00, 0x00]
  const SourceAckPrefix: seq<byte> := [0x00, 0x00, 0x00, 0x0b, 0x04, 0x03, 0x01, 0x01, 0x02, 0x00]
  /** Input-source names and the payload byte selecting each. */
  const SourceMap: map<string, byte> := map["aes1" := 0x00, "aes2" := 0x01, "optical" := 0x02, "streaming" := 0x03]
  /** Keep-alive sent by both ends. */
  const HeartbeatPacket: seq<byte> := [0x00, 0x00, 0x00, 0x05, 0x04]
  /** Seconds between two keep-alives sent by the remote. */
  const HeartbeatInterval: nat := 10
  /** TCP port the device listens on unless told otherwise. */
  const DefaultPort: nat := 4444

  /** How the constant frames relate: the keep-alive extends the first handshake message; the
    * three acknowledgement prefixes and the update prefix are ten bytes that share their first
    * five and differ in the seventh; the three command prefixes are five bytes,
    * pairwise different. */
  lemma FrameLayout()
    ensures HeartbeatPacket == HandshakeMsg1 + [0x04]
    ensures |VolumeAckPrefix| == |DimAckPrefix| == |SourceAckPrefix| == |VolumeDeviceUpdatePrefix| == 10
    ensures VolumeAckPrefix[..5] == DimAckPrefix[..5] == SourceAckPrefix[..5] == VolumeDeviceUpdatePrefix[..5]
    ensures VolumeAckPrefix[6] == 0x12 && DimAckPrefix[6] == 0x13 && SourceAckPrefix[6] == 0x01
    ensures VolumeDeviceUpdatePrefix[6] == 0x14
    ensures |VolumeCmdPrefix| == |DimCmdPrefix| == |SourceCmdPrefix| == 5
    ensures VolumeCmdPrefix != DimCmdPrefix && VolumeCmdPrefix != SourceCmdPrefix && DimCmdPrefix != SourceCmdPrefix
  {
  }

  // ---- Volume conversion ----------------------------------------------------

  /** Python's `int()` applied to a number: truncation toward zero. */
  function TruncateTowardZero(x: real): (n: int)
    ensures 0.0 <= x ==> n as real <= x < n as real + 1.0
    ensures x < 0.0 ==> n as real - 1.0 < x <= n as real
  {
    if x >= 0.0 then x.Floor else -((-x).Floor)
  }

  /** The volume range the remote accepts, in dB. */
  predicate ValidVolume(db: real) {
    -95.0 <= db <= 0.0
  }

  /** `db` is a whole number of half-decibel steps. */
  predicate HalfDbStep(db: real) {
    (db * 2.0).Floor as real == db * 2.0
  }

  /** `int(192 + db * 2)`: the volume byte sent for a level in dB. */
  function DbToByte(db: real): (v: int)
    ensures ValidVolume(db) ==> 2 <= v <= 192
  {
    TruncateTowardZero(192.0 + db * 2.0)
  }

  /** `(b - 192) / 2.0`: the level in dB a volume byte stands for. */
  function ByteToDb(b: byte): (db: real)
    ensures -96.0 <= db <= 31.5
    ensures 2 <= b <= 192 <==> ValidVolume(db)
  {
    (b as real - 192.0) / 2.0
  }

  /** Every volume byte stands for a whole number of half-dB steps. */
  lemma ByteToDbIsHalfStep(b: byte)
    ensures HalfDbStep(ByteToDb(b))
  {
    assert ByteToDb(b) * 2.0 == (b - 192) as real;
  }

  /** For every half-dB step in range, decoding the encoded byte gives the level back. */
  lemma VolumeDbRoundTrip(db: real)
    requires ValidVolume(db) && HalfDbStep(db)
    ensures ByteToDb(DbToByte(db) as byte) == db
  {
  }

  /** For every byte, encoding the level it decodes to gives the byte back. */
  lemma VolumeByteRoundTrip(b: byte)
    ensures DbToByte(ByteToDb(b)) == b
  {
  }

  /** A level in range is sent as the half-dB step at or just below it. */
  lemma DbToByteQuantises(db: real)
    requires ValidVolume(db)
    ensures ByteToDb(DbToByte(db) as byte) <= db < ByteToDb(DbToByte(db) as byte) + 0.5
  {
  }

  // ---- Commands and acknowledgements ----------------------------------------

  /** The three typed commands the remote sends. */
  datatype Command = VolumeCmd | DimCmd | SourceCmd

  function CommandPrefix(c: Command): seq<byte> {
    match c
    case VolumeCmd => VolumeCmdPrefix
    case DimCmd => DimCmdPrefix
    case SourceCmd => SourceCmdPrefix
  }

  function AckPrefix(c: Command): seq<byte> {
    match c
    case VolumeCmd => VolumeAckPrefix
    case DimCmd => DimAckPrefix
    case SourceCmd => SourceAckPrefix
  }

  /** The typed command: its 5-byte prefix followed by the payload byte. */
  function CommandFrame(c: Command, payload: byte): seq<byte> {
    CommandPrefix(c) + [payload]
  }

  /** The acknowledgement that confirms the command: its 10-byte prefix and the same payload. */
  function ExpectedAck(c: Command, payload: byte): seq<byte> {
    AckPrefix(c) + [payload]
  }

  /** Everything one command puts on the wire: the preamble, then the typed command. */
  function Outbound(c: Command, payload: byte): seq<byte> {
    PreCmd + CommandFrame(c, payload)
  }

  /** The payload selecting the DIM state. */
  function DimPayload(on: bool): byte {
    if on then DimOnPayload else DimOffPayload
  }

  /** The acknowledgements of DIM on and DIM off differ, so neither confirms the other. */
  lemma DimAcksDiffer()
    ensures ExpectedAck(DimCmd, DimPayload(true)) != ExpectedAck(DimCmd, DimPayload(false))
  {
    assert ExpectedAck(DimCmd, DimPayload(true))[10] == 0x01;
  }

  /** What the device reads from one command's bytes: the command and its payload. */
  function DecodeOutbound(s: seq<byte>): Option<(Command, byte)> {
    if |s| != 10 || s[..4] != PreCmd then None
    else if s[4..9] == VolumeCmdPrefix then Some((VolumeCmd, s[9]))
    else if s[4..9] == DimCmdPrefix then Some((DimCmd, s[9]))
    else if s[4..9] == SourceCmdPrefix then Some((SourceCmd, s[9]))
    else None
  }

  /** Every outbound command is ten bytes and decodes to the command and payload it was built from. */
  lemma OutboundRoundTrip(c: Command, payload: byte)
    ensures |Outbound(c, payload)| == 10
    ensures DecodeOutbound(Outbound(c, payload)) == Some((c, payload))
  {
    var s := Outbound(c, payload);
    assert s[..4] == PreCmd;
    assert s[4..9] == CommandPrefix(c);
  }

  /** Whatever decodes was built by Outbound: the decoder accepts nothing else. */
  lemma DecodeOutboundExact(s: seq<byte>, c: Command, payload: byte)
    requires DecodeOutbound(s) == Some((c, payload))
    ensures s == Outbound(c, payload)
  {
    assert s == s[..4] + s[4..9] + [s[9]];
  }

  /** Commands with different kinds or payloads never share their bytes. */
  lemma OutboundInjective(c1: Command, p1: byte, c2: Command, p2: byte)
    requires Outbound(c1, p1) == Outbound(c2, p2)
    ensures c1 == c2 && p1 == p2
  {
    OutboundRoundTrip(c1, p1);
    OutboundRoundTrip(c2, p2);
  }

  /** A reply that ends with one command's acknowledgement ends with no other command's. */
  lemma AckIdentifiesCommand(c1: Command, p1: byte, c2: Command, p2: byte)
    ensures EndsWith(ExpectedAck(c1, p1), ExpectedAck(c2, p2)) <==> c1 == c2 && p1 == p2
  {
    var a1, a2 := ExpectedAck(c1, p1), ExpectedAck(c2, p2);
    if a1 == a2 {
      assert a1[6] == a2[6] && a1[5] == a2[5] && a1[10] == a2[10];
    }
  }

  /** The source map selects four distinct payloads, 0 to 3. */
  lemma SourceMapPayloads(n1: string, n2: string)
    requires n1 in SourceMap && n2 in SourceMap
    ensures SourceMap[n1] <= 3
    ensures SourceMap[n1] == SourceMap[n2] ==> n1 == n2
  {
  }
}
