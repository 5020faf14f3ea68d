/**
 * The remote control object. Its fields are updated in place by the connection,
 * by the listener (one buffer at a time) and by the three commands; `sent` records
 * every byte written to the socket, in order. Each method is proved to do what the
 * matching function of module Session describes.
 */
module Remote {
  import opened Wrappers
  import opened Bytes
  import opened Text
  import opened Protocol
  import Session

  /**
   * The loop that waits for the initial data dump: reads are appended to a buffer until
   * the keep-alive appears in it. An empty read means the device closed the connection;
   * running out of reads stands for the read timeout. `used` is the number of reads taken.
   */
  method AwaitInitialDump(chunks: seq<seq<byte>>) returns (ok: bool, used: nat)
    ensures used <= |chunks|
    ensures ok <==> Session.DumpSucceeds(chunks)
    ensures ok ==> Session.NoEmptyBefore(chunks, used) && Contains(Concat(chunks[..used]), HeartbeatPacket)
  {
    var buffer: seq<byte> := [];
    used := 0;
    while !Contains(buffer, HeartbeatPacket)
      invariant used <= |chunks|
      invariant buffer == Concat(chunks[..used])
      invariant Session.NoEmptyBefore(chunks, used)
      invariant forall n :: 0 <= n < used ==> !Contains(Concat(chunks[..n]), HeartbeatPacket)
      decreases |chunks| - used
    {
      if used == |chunks| {
        ok := false;
        return;
      }
      var chunk := chunks[used];
      if chunk == [] {
        ok := false;
        return;
      }
      buffer := buffer + chunk;
      assert chunks[..used + 1] == chunks[..used] + [chunk];
      ConcatAppend(chunks[..used], chunk);
      used := used + 1;
    }
    ok := true;
  }

  class Dp564Remote {
    const host: string
    const port: nat
    var isConnected: bool
    var volumeDb: real
    var dimState: bool
    var source: string
    var lastAck: Option<seq<byte>>
    /** Every byte written to the socket, oldest first. */
    var sent: seq<byte>

    /** The fields the protocol logic reads and writes, as one value. */
    function State(): Session.DeviceState
      reads this
    {
      Session.DeviceState(isConnected, volumeDb, dimState, source, lastAck)
    }

    /** Sets the default state, then connects; the port is 4444 unless given. */
    constructor (host: string, accepted: bool, chunks: seq<seq<byte>>, port: nat := DefaultPort)
      ensures this.host == host && this.port == port
      ensures var o := Session.Connect(Session.Initial, accepted, chunks);
        State() == o.state && sent == o.sent
    {
      this.host := host;
      this.port := port;
      isConnected := false;
      volumeDb := 0.0;
      dimState := false;
      source := "aes1";
      lastAck := None;
      sent := [];
      new;
      Connect(accepted, chunks);
    }

    /**
     * Opens the connection (`accepted` tells whether the device accepted it), sends the
     * two handshake messages and waits for the initial dump.
     */
    method Connect(accepted: bool, chunks: seq<seq<byte>>)
      modifies this`isConnected, this`sent
      ensures var o := Session.Connect(old(State()), accepted, chunks);
        State() == o.state && sent == old(sent) + o.sent
    {
      if !accepted {
        isConnected := false;
        return;
      }
      isConnected := true;
      sent := sent + HandshakeMsg1;
      sent := sent + HandshakeMsg2;
      var ok, _ := AwaitInitialDump(chunks);
      if !ok {
        isConnected := false;
      }
    }

    /** The listener's handling of one received buffer. */
    method HandlePacket(data: seq<byte>)
      modifies this`isConnected, this`volumeDb, this`lastAck
      ensures State() == Session.Receive(old(State()), data)
    {
      if data == [] {
        isConnected := false;
        return;
      }
      if data == HeartbeatPacket {
        return;
      }
      if StartsWith(data, VolumeDeviceUpdatePrefix) {
        var level := ByteToDb(data[|data| - 1]);
        if volumeDb != level {
          volumeDb := level;
        }
      } else {
        if StartsWith(data, VolumeAckPrefix) {
          volumeDb := ByteToDb(data[|data| - 1]);
        }
        lastAck := Some(data);
      }
    }

    /** The listener loop over the buffers the socket returns, until the device closes. */
    method Listen(buffers: seq<seq<byte>>)
      modifies this`isConnected, this`volumeDb, this`lastAck
      ensures State() == Session.Replay(old(State()), buffers)
    {
      var i := 0;
      while i < |buffers|
        invariant i <= |buffers|
        invariant Session.Replay(old(State()), buffers) == Session.Replay(State(), buffers[i..])
      {
        var data := buffers[i];
        assert buffers[i..][1..] == buffers[i + 1..];
        HandlePacket(data);
        if data == [] {
          return;
        }
        i := i + 1;
      }
    }

    /** `SetVolumeDb(db_level)`: `ack` is the buffer received while waiting, if any. */
    method SetVolumeDb(dbLevel: real, ack: Option<seq<byte>>)
      modifies this`isConnected, this`volumeDb, this`lastAck, this`sent
      ensures var o := Session.SetVolumeDb(old(State()), dbLevel, ack);
        State() == o.state && sent == old(sent) + o.sent
    {
      if !isConnected {
        return;
      }
      if !(-95.0 <= dbLevel <= 0.0) {
        return;
      }
      var value: byte := DbToByte(dbLevel);
      var command := VolumeCmdPrefix + [value];
      var expected := VolumeAckPrefix + [value];
      AwaitAckAfterSending(command, ack);
      if lastAck.Some? && lastAck.value != [] && EndsWith(lastAck.value, expected) {
        volumeDb := dbLevel;
      }
    }

    /** `Dim(value)`: no value toggles the current state. */
    method Dim(value: Option<bool>, ack: Option<seq<byte>>)
      modifies this`isConnected, this`volumeDb, this`dimState, this`lastAck, this`sent
      ensures var o := Session.Dim(old(State()), value, ack);
        State() == o.state && sent == old(sent) + o.sent
    {
      if !isConnected {
        return;
      }
      var targetState := if value.None? then !dimState else value.value;
      var payload := if targetState then DimOnPayload else DimOffPayload;
      var command := DimCmdPrefix + [payload];
      var expected := DimAckPrefix + [payload];
      AwaitAckAfterSending(command, ack);
      if lastAck.Some? && lastAck.value != [] && EndsWith(lastAck.value, expected) {
        dimState := targetState;
      }
    }

    /** `SetSource(source_name)` */
    method SetSource(sourceName: string, ack: Option<seq<byte>>)
      modifies this`isConnected, this`volumeDb, this`source, this`lastAck, this`sent
      ensures var o := Session.SetSource(old(State()), sourceName, ack);
        State() == o.state && sent == old(sent) + o.sent
    {
      if !isConnected {
        return;
      }
      var name := Lower(sourceName);
      if name !in SourceMap {
        return;
      }
      var payload := SourceMap[name];
      var command := SourceCmdPrefix + [payload];
      var expected := SourceAckPrefix + [payload];
      AwaitAckAfterSending(command, ack);
      if lastAck.Some? && lastAck.value != [] && EndsWith(lastAck.value, expected) {
        source := name;
      }
    }

    /** The part the three commands share: clear `last_ack`, write the preamble and the
      * typed command, then wait for the acknowledgement. */
    method AwaitAckAfterSending(command: seq<byte>, ack: Option<seq<byte>>)
      modifies this`isConnected, this`volumeDb, this`lastAck, this`sent
      ensures State() == Session.Await(old(State()), ack)
      ensures sent == old(sent) + PreCmd + command
    {
      lastAck := None;
      sent := sent + PreCmd;
      sent := sent + command;
      if ack.Some? {
        HandlePacket(ack.value);
      }
    }

    /** One round of the keep-alive thread, run every `HeartbeatInterval` seconds: while
      * connected, the keep-alive is written. */
    method SendHeartbeat()
      modifies this`sent
      ensures sent == old(sent) + (if isConnected then HeartbeatPacket else [])
    {
      if isConnected {
        sent := sent + HeartbeatPacket;
      }
    }

    /** `disconnect()`: the device state is kept as it was last known. */
    method Disconnect()
      modifies this`isConnected
      ensures State() == old(State()).(connected := false)
    {
      isConnected := false;
    }
  }
}
