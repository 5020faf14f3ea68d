/**
 * Classification of one buffer returned by a socket read, as the listener thread
 * performs it before updating the remote's state.
 */
module Inbound {
  import opened Wrappers
  import opened Bytes
  import opened Protocol

  /** What one received buffer is taken to be. */
  datatype Packet =
    | Closed                                      // an empty read: the device closed the connection
    | Heartbeat                                   // exactly the keep-alive packet
    | DeviceUpdate(level: byte)                   // an unsolicited volume report; the level is the last byte
    | Reply(data: seq<byte>, ackLevel: Option<byte>) // anything else, kept as the last reply; a volume
                                                  // acknowledgement also carries a level in its last byte

  /**
   * The listener's decision for one buffer. The keep-alive is recognised by
   * equality, the other frames by prefix; no length is checked beyond the prefix.
   */
  function Classify(data: seq<byte>): (p: Packet)
    ensures p.Closed? <==> data == []
    ensures p.Heartbeat? <==> data == HeartbeatPacket
    ensures p.DeviceUpdate? <==> StartsWith(data, VolumeDeviceUpdatePrefix)
    ensures p.DeviceUpdate? ==> p.level == data[|data| - 1]
    ensures p.Reply? ==> p.data == data && data != [] && data != HeartbeatPacket
    ensures p.Reply? ==> (p.ackLevel.Some? <==> StartsWith(data, VolumeAckPrefix))
    ensures p.Reply? && p.ackLevel.Some? ==> p.ackLevel.value == data[|data| - 1]
  {
    if data == [] then Closed
    else if data == HeartbeatPacket then Heartbeat
    else if StartsWith(data, VolumeDeviceUpdatePrefix) then DeviceUpdate(data[|data| - 1])
    else if StartsWith(data, VolumeAckPrefix) then Reply(data, Some(data[|data| - 1]))
    else Reply(data, None)
  }

  /** Each frame the device sends is recognised as what it is, with its trailing byte. */
  lemma ClassifyDeviceFrames(b: byte)
    ensures Classify(VolumeDeviceUpdatePrefix + [b]) == DeviceUpdate(b)
    ensures Classify(ExpectedAck(VolumeCmd, b)) == Reply(ExpectedAck(VolumeCmd, b), Some(b))
    ensures Classify(ExpectedAck(DimCmd, b)) == Reply(ExpectedAck(DimCmd, b), None)
    ensures Classify(ExpectedAck(SourceCmd, b)) == Reply(ExpectedAck(SourceCmd, b), None)
    ensures Classify(HeartbeatPacket) == Heartbeat
  {
    assert (VolumeDeviceUpdatePrefix + [b])[..10] == VolumeDeviceUpdatePrefix;
    assert ExpectedAck(VolumeCmd, b)[..10] == VolumeAckPrefix;
    assert ExpectedAck(DimCmd, b)[6] != VolumeDeviceUpdatePrefix[6];
    assert ExpectedAck(SourceCmd, b)[6] != VolumeDeviceUpdatePrefix[6];
  }

  /** The keep-alive test is equality: a keep-alive followed by anything else is a reply. */
  lemma HeartbeatIsExactMatch(rest: seq<byte>)
    requires rest != []
    ensures Classify(HeartbeatPacket + rest) == Reply(HeartbeatPacket + rest, None)
  {
    var data := HeartbeatPacket + rest;
    assert |data| > 5 && data[3] == 0x05;
    assert !StartsWith(data, VolumeDeviceUpdatePrefix) by { assert VolumeDeviceUpdatePrefix[3] == 0x0b; }
    assert !StartsWith(data, VolumeAckPrefix) by { assert VolumeAckPrefix[3] == 0x0b; }
  }

  /** A bare update prefix with no value byte reports its own last byte, 0x00. */
  lemma BareUpdatePrefix()
    ensures Classify(VolumeDeviceUpdatePrefix) == DeviceUpdate(0x00)
    ensures ByteToDb(0x00) == -96.0
  {
    assert VolumeDeviceUpdatePrefix[..10] == VolumeDeviceUpdatePrefix;
  }
}
