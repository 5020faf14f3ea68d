/**
 * The remote's session state as a value, and the effect of each event on it:
 * one buffer handled by the listener, a sequence of such buffers, the connection
 * with its initial data dump, and the three commands. The class in module Remote
 * is proved to follow these functions step for step.
 */
module Session {
  import opened Wrappers
  import opened Bytes
  import opened Text
  import opened Protocol
  import opened Inbound

  /** The fields of a remote: `is_connected`, `volume_db`, `dim_state`, `source`, `last_ack`. */
  datatype DeviceState = DeviceState(
    connected: bool,
    volumeDb: real,
    dimState: bool,
    source: string,
    lastAck: Option<seq<byte>>)

  /** The values the constructor assigns before it connects. */
  const Initial: DeviceState := DeviceState(false, 0.0, false, "aes1", None)

  /** The state after an operation, and the bytes the operation wrote to the socket. */
  datatype Outcome = Outcome(state: DeviceState, sent: seq<byte>)

  // ---- Listener ---------------------------------------------------------------

  /** The listener's handling of one received buffer. */
  function Receive(st: DeviceState, data: seq<byte>): (st': DeviceState)
    ensures st'.dimState == st.dimState && st'.source == st.source
  {
    match Classify(data)
    case Closed => st.(connected := false)
    case Heartbeat => st
    case DeviceUpdate(b) => st.(volumeDb := ByteToDb(b))
    case Reply(d, level) =>
      st.(volumeDb := if level.Some? then ByteToDb(level.value) else st.volumeDb, lastAck := Some(d))
  }

  /** The listener loop over successive buffers; it stops at the first empty read. */
  function Replay(st: DeviceState, buffers: seq<seq<byte>>): (r: DeviceState)
    ensures r.dimState == st.dimState && r.source == st.source
    decreases |buffers|
  {
    if buffers == [] then st
    else if buffers[0] == [] then Receive(st, [])
    else Replay(Receive(st, buffers[0]), buffers[1..])
  }

  /** One buffer, stated on the raw bytes: what each kind of buffer changes and what it leaves. */
  lemma ReceiveEffects(st: DeviceState, data: seq<byte>)
    ensures data == HeartbeatPacket ==> Receive(st, data) == st
    ensures data == [] ==> Receive(st, data) == st.(connected := false)
    ensures StartsWith(data, VolumeDeviceUpdatePrefix) ==>
              Receive(st, data) == st.(volumeDb := (data[|data| - 1] as real - 192.0) / 2.0)
    ensures data != [] && data != HeartbeatPacket && !StartsWith(data, VolumeDeviceUpdatePrefix) ==>
              Receive(st, data).lastAck == Some(data) && Receive(st, data).connected == st.connected
    ensures data != HeartbeatPacket && StartsWith(data, VolumeAckPrefix) ==>
              Receive(st, data).volumeDb == (data[|data| - 1] as real - 192.0) / 2.0
    ensures !StartsWith(data, VolumeDeviceUpdatePrefix) && !StartsWith(data, VolumeAckPrefix) ==>
              Receive(st, data).volumeDb == st.volumeDb
  {
  }

  /** The volume acknowledgement carrying 0xAC sets the volume to -10.0 dB. */
  lemma VolumeAckExample(st: DeviceState)
    ensures Receive(st, [0x00, 0x00, 0x00, 0x0b, 0x04, 0x03, 0x12, 0x01, 0x02, 0x00, 0xAC]).volumeDb == -10.0
  {
    var data: seq<byte> := [0x00, 0x00, 0x00, 0x0b, 0x04, 0x03, 0x12, 0x01, 0x02, 0x00, 0xAC];
    assert data == ExpectedAck(VolumeCmd, 0xAC);
    ClassifyDeviceFrames(0xAC);
  }

  /** A DIM acknowledgement received by the listener is kept as the last reply; the DIM state stays. */
  lemma DimAckOnlyRecorded(st: DeviceState)
    ensures Receive(st, [0x00, 0x00, 0x00, 0x0b, 0x04, 0x05, 0x13, 0x01, 0x02, 0x00, 0x01]) ==
            st.(lastAck := Some([0x00, 0x00, 0x00, 0x0b, 0x04, 0x05, 0x13, 0x01, 0x02, 0x00, 0x01]))
  {
    var data: seq<byte> := [0x00, 0x00, 0x00, 0x0b, 0x04, 0x05, 0x13, 0x01, 0x02, 0x00, 0x01];
    assert data == ExpectedAck(DimCmd, 0x01);
    ClassifyDeviceFrames(0x01);
  }

  /** A connected session stays connected through the listener loop exactly when no buffer is empty. */
  lemma {:induction false} ReplayConnected(st: DeviceState, buffers: seq<seq<byte>>)
    ensures Replay(st, buffers).connected == (st.connected && [] !in buffers)
    decreases |buffers|
  {
    if buffers != [] && buffers[0] != [] {
      ReplayConnected(Receive(st, buffers[0]), buffers[1..]);
      assert buffers == [buffers[0]] + buffers[1..];
    }
  }

  /** Buffers after the first empty read are never looked at. */
  lemma {:induction false} ReplayStopsAtClose(st: DeviceState, buffers: seq<seq<byte>>, k: nat)
    requires k < |buffers| && buffers[k] == []
    ensures Replay(st, buffers) == Replay(st, buffers[..k + 1])
    decreases k
  {
    if buffers[0] != [] {
      assert buffers[..k + 1][1..] == buffers[1..][..k];
      ReplayStopsAtClose(Receive(st, buffers[0]), buffers[1..], k - 1);
    }
  }

  // ---- Connection ---------------------------------------------------------------

  /** None of the first `n` chunks is empty. */
  predicate NoEmptyBefore(chunks: seq<seq<byte>>, n: nat)
    requires n <= |chunks|
  {
    forall j :: 0 <= j < n ==> chunks[j] != []
  }

  /** The initial dump ends well: the keep-alive shows up in the accumulated bytes before any empty read. */
  ghost predicate DumpSucceeds(chunks: seq<seq<byte>>)
    ensures DumpSucceeds(chunks) ==> Contains(Concat(chunks), HeartbeatPacket)
  {
    var found := exists n :: 0 <= n <= |chunks| && NoEmptyBefore(chunks, n) && Contains(Concat(chunks[..n]), HeartbeatPacket);
    if !found then false
    else
      var n :| 0 <= n <= |chunks| && NoEmptyBefore(chunks, n) && Contains(Concat(chunks[..n]), HeartbeatPacket);
      ConcatPrefix(chunks, n, |chunks|);
      assert chunks[..|chunks|] == chunks;
      ContainsInPrefix(Concat(chunks[..n]), Concat(chunks), HeartbeatPacket);
      true
  }

  /** An empty read that comes while the keep-alive has not yet appeared makes the dump fail. */
  lemma EmptyChunkBeforeHeartbeatFails(chunks: seq<seq<byte>>, j: nat)
    requires j < |chunks| && chunks[j] == []
    requires !Contains(Concat(chunks[..j]), HeartbeatPacket)
    ensures !DumpSucceeds(chunks)
  {
    forall n | 0 <= n <= |chunks| && NoEmptyBefore(chunks, n)
      ensures !Contains(Concat(chunks[..n]), HeartbeatPacket)
    {
      assert n <= j;
      ConcatPrefix(chunks, n, j);
      if Contains(Concat(chunks[..n]), HeartbeatPacket) {
        ContainsInPrefix(Concat(chunks[..n]), Concat(chunks[..j]), HeartbeatPacket);
      }
    }
  }

  /** The keep-alive may arrive split across two buffers. */
  lemma HeartbeatAcrossChunks()
    ensures DumpSucceeds([[0x00, 0x00, 0x00], [0x05, 0x04]])
  {
    var chunks: seq<seq<byte>> := [[0x00, 0x00, 0x00], [0x05, 0x04]];
    assert chunks[..2] == chunks;
    assert chunks[..1] == [chunks[0]];
    assert Concat(chunks[..2]) == HeartbeatPacket;
    assert OccursAt(Concat(chunks[..2]), HeartbeatPacket, 0);
  }

  /** Connecting: the handshake when the device accepts, then the initial dump decides the connection. */
  ghost function Connect(st: DeviceState, accepted: bool, chunks: seq<seq<byte>>): (r: Outcome)
    ensures r.state == st.(connected := r.state.connected)
    ensures r.state.connected ==> accepted && Contains(Concat(chunks), HeartbeatPacket)
    ensures r.sent == [] <==> !accepted
    ensures r.sent == if accepted then [0x00, 0x00, 0x00, 0x05, 0x03] else []
    ensures r.state.connected <==> accepted && DumpSucceeds(chunks)
  {
    if !accepted then Outcome(st.(connected := false), [])
    else Outcome(st.(connected := DumpSucceeds(chunks)), HandshakeMsg1 + HandshakeMsg2)
  }

  /** An empty read that comes before the keep-alive has appeared leaves the remote disconnected. */
  lemma EmptyChunkFirstLeavesDisconnected(st: DeviceState, accepted: bool, chunks: seq<seq<byte>>, j: nat)
    requires j < |chunks| && chunks[j] == []
    requires !Contains(Concat(chunks[..j]), HeartbeatPacket)
    ensures !Connect(st, accepted, chunks).state.connected
  {
    EmptyChunkBeforeHeartbeatFails(chunks, j);
  }

  // ---- Commands -------------------------------------------------------------------

  /** The state once the ack wait is over: `last_ack` was cleared, then the listener handled
    * the buffer that arrived during the wait, if one did. */
  function Await(st: DeviceState, ack: Option<seq<byte>>): (r: DeviceState)
    ensures ack.None? ==> r == st.(lastAck := None)
    ensures r.lastAck.Some? ==> ack.Some? && r.lastAck.value == ack.value
    ensures r.dimState == st.dimState && r.source == st.source
  {
    var cleared := st.(lastAck := None);
    if ack.None? then cleared else Receive(cleared, ack.value)
  }

  /** `last_ack and last_ack.endswith(expected)` */
  predicate AckMatches(lastAck: Option<seq<byte>>, expected: seq<byte>) {
    lastAck.Some? && lastAck.value != [] && EndsWith(lastAck.value, expected)
  }

  /** The buffer that arrived during the wait confirms the command, stated on its raw bytes. */
  predicate Confirms(ack: Option<seq<byte>>, c: Command, payload: byte) {
    ack.Some? && !StartsWith(ack.value, VolumeDeviceUpdatePrefix) && EndsWith(ack.value, ExpectedAck(c, payload))
  }

  lemma AwaitMatchesIffConfirms(st: DeviceState, ack: Option<seq<byte>>, c: Command, payload: byte)
    ensures AckMatches(Await(st, ack).lastAck, ExpectedAck(c, payload)) <==> Confirms(ack, c, payload)
  {
    if ack.Some? && EndsWith(ack.value, ExpectedAck(c, payload)) {
      assert |ack.value| >= 11;
      assert ack.value != HeartbeatPacket;
    }
  }

  /** `SetVolumeDb(db_level)` */
  function SetVolumeDb(st: DeviceState, dbLevel: real, ack: Option<seq<byte>>): (r: Outcome)
    ensures r.sent == [] <==> !(st.connected && ValidVolume(dbLevel))
    ensures r.state.dimState == st.dimState && r.state.source == st.source
  {
    if !st.connected || !ValidVolume(dbLevel) then Outcome(st, [])
    else
      var value: byte := DbToByte(dbLevel);
      var after := Await(st, ack);
      var st' := if AckMatches(after.lastAck, ExpectedAck(VolumeCmd, value)) then after.(volumeDb := dbLevel) else after;
      Outcome(st', Outbound(VolumeCmd, value))
  }

  /** The DIM state a `Dim(value)` call asks for: the opposite of the current one when no value is given. */
  function DimTarget(current: bool, value: Option<bool>): bool {
    if value.None? then !current else value.value
  }

  /** `Dim(value)` */
  function Dim(st: DeviceState, value: Option<bool>, ack: Option<seq<byte>>): (r: Outcome)
    ensures r.sent == [] <==> !st.connected
    ensures r.state.source == st.source
    ensures r.state.dimState != st.dimState ==> st.connected && r.state.dimState == DimTarget(st.dimState, value)
  {
    if !st.connected then Outcome(st, [])
    else
      var target := DimTarget(st.dimState, value);
      var payload := DimPayload(target);
      var after := Await(st, ack);
      var st' := if AckMatches(after.lastAck, ExpectedAck(DimCmd, payload)) then after.(dimState := target) else after;
      Outcome(st', Outbound(DimCmd, payload))
  }

  /** `SetSource(source_name)` */
  function SetSource(st: DeviceState, sourceName: string, ack: Option<seq<byte>>): (r: Outcome)
    ensures r.sent == [] <==> !(st.connected && Lower(sourceName) in SourceMap)
    ensures r.state.dimState == st.dimState
    ensures r.state.source != st.source ==> r.state.source == Lower(sourceName) && r.state.source in SourceMap
  {
    if !st.connected then Outcome(st, [])
    else
      var name := Lower(sourceName);
      if name !in SourceMap then Outcome(st, [])
      else
        var payload := SourceMap[name];
        var after := Await(st, ack);
        var st' := if AckMatches(after.lastAck, ExpectedAck(SourceCmd, payload)) then after.(source := name) else after;
        Outcome(st', Outbound(SourceCmd, payload))
  }

  /** While disconnected, or with an invalid argument, a command writes nothing and changes nothing. */
  lemma RejectedCommandsAreSilent(st: DeviceState, dbLevel: real, value: Option<bool>, sourceName: string,
                                  ack: Option<seq<byte>>)
    ensures !st.connected || !ValidVolume(dbLevel) ==> SetVolumeDb(st, dbLevel, ack) == Outcome(st, [])
    ensures !st.connected ==> Dim(st, value, ack) == Outcome(st, [])
    ensures !st.connected || Lower(sourceName) !in SourceMap ==> SetSource(st, sourceName, ack) == Outcome(st, [])
  {
  }

  /** A valid volume command writes the preamble, the volume prefix and a byte between 2 and 192. */
  lemma SetVolumeDbWrites(st: DeviceState, dbLevel: real, ack: Option<seq<byte>>)
    requires st.connected && ValidVolume(dbLevel)
    ensures var v := DbToByte(dbLevel);
      2 <= v <= 192 &&
      SetVolumeDb(st, dbLevel, ack).sent == [0x00, 0x00, 0x00, 0x0a, 0x02, 0x03, 0x12, 0x00, 0x00, v]
  {
  }

  /** A DIM command writes the preamble, the DIM prefix and 01 for on, 00 for off. */
  lemma DimWrites(st: DeviceState, value: Option<bool>, ack: Option<seq<byte>>)
    requires st.connected
    ensures Dim(st, value, ack).sent ==
      [0x00, 0x00, 0x00, 0x0a, 0x02, 0x05, 0x13, 0x00, 0x00, if DimTarget(st.dimState, value) then 0x01 else 0x00]
  {
  }

  /** A source command writes the preamble, the source prefix and the source's payload, 0 to 3. */
  lemma SetSourceWrites(st: DeviceState, sourceName: string, ack: Option<seq<byte>>)
    requires st.connected && Lower(sourceName) in SourceMap
    ensures var p := SourceMap[Lower(sourceName)];
      p <= 3 && SetSource(st, sourceName, ack).sent == [0x00, 0x00, 0x00, 0x0a, 0x02, 0x03, 0x01, 0x00, 0x00, p]
  {
    SourceMapPayloads(Lower(sourceName), Lower(sourceName));
  }

  /** Without an acknowledgement nothing but `last_ack` changes: it is cleared by a command
    * that passed its checks. */
  lemma NoAckNoCommit(st: DeviceState, dbLevel: real, value: Option<bool>, sourceName: string)
    ensures SetVolumeDb(st, dbLevel, None).state ==
            if st.connected && ValidVolume(dbLevel) then st.(lastAck := None) else st
    ensures Dim(st, value, None).state == if st.connected then st.(lastAck := None) else st
    ensures SetSource(st, sourceName, None).state ==
            if st.connected && Lower(sourceName) in SourceMap then st.(lastAck := None) else st
  {
  }

  /** The volume is set to the requested level exactly when the device confirms the command; a
    * reply that is no volume report leaves the previous level. */
  lemma SetVolumeDbCommit(st: DeviceState, dbLevel: real, ack: Option<seq<byte>>)
    requires st.connected && ValidVolume(dbLevel)
    ensures SetVolumeDb(st, dbLevel, ack).state ==
      if Confirms(ack, VolumeCmd, DbToByte(dbLevel)) then Await(st, ack).(volumeDb := dbLevel) else Await(st, ack)
  {
    AwaitMatchesIffConfirms(st, ack, VolumeCmd, DbToByte(dbLevel));
  }

  /** The requested level is stored, not the level of the byte sent: asking for -20.25 dB sends
    * the byte for -20.5 dB and records -20.25 dB once confirmed. */
  lemma SetVolumeDbStoresRequest(st: DeviceState)
    requires st.connected
    ensures DbToByte(-20.25) == 151 && ByteToDb(151) == -20.5
    ensures SetVolumeDb(st, -20.25, Some(ExpectedAck(VolumeCmd, 151))).state.volumeDb == -20.25
  {
    AwaitMatchesIffConfirms(st, Some(ExpectedAck(VolumeCmd, 151)), VolumeCmd, 151);
    assert ExpectedAck(VolumeCmd, 151)[..10] != VolumeDeviceUpdatePrefix by {
      assert ExpectedAck(VolumeCmd, 151)[6] == 0x12;
    }
  }

  /** The DIM state becomes the target exactly when the device confirms; nothing else touches it. */
  lemma DimCommit(st: DeviceState, value: Option<bool>, ack: Option<seq<byte>>)
    requires st.connected
    ensures var t := DimTarget(st.dimState, value);
      Dim(st, value, ack).state ==
        Await(st, ack).(dimState := if Confirms(ack, DimCmd, DimPayload(t)) then t else st.dimState)
  {
    AwaitMatchesIffConfirms(st, ack, DimCmd, DimPayload(DimTarget(st.dimState, value)));
  }

  /** The source becomes the lower-cased name exactly when the device confirms. */
  lemma SetSourceCommit(st: DeviceState, sourceName: string, ack: Option<seq<byte>>)
    requires st.connected && Lower(sourceName) in SourceMap
    ensures var name := Lower(sourceName);
      SetSource(st, sourceName, ack).state ==
        Await(st, ack).(source := if Confirms(ack, SourceCmd, SourceMap[name]) then name else st.source)
  {
    AwaitMatchesIffConfirms(st, ack, SourceCmd, SourceMap[Lower(sourceName)]);
  }

  /** Confirming the device's own acknowledgement: the frame built from the command's payload. */
  lemma OwnAckConfirms(c: Command, payload: byte)
    ensures Confirms(Some(ExpectedAck(c, payload)), c, payload)
  {
    var a := ExpectedAck(c, payload);
    assert a[6] != VolumeDeviceUpdatePrefix[6];
    assert a[|a| - 11..] == a;
  }

  /** Two confirmed toggles bring the DIM state back to where it was. */
  lemma DimToggleTwice(st: DeviceState)
    requires st.connected
    ensures var first := Dim(st, None, Some(ExpectedAck(DimCmd, DimPayload(!st.dimState)))).state;
      first.dimState == !st.dimState &&
      Dim(first, None, Some(ExpectedAck(DimCmd, DimPayload(st.dimState)))).state.dimState == st.dimState
  {
    var ack1 := Some(ExpectedAck(DimCmd, DimPayload(!st.dimState)));
    OwnAckConfirms(DimCmd, DimPayload(!st.dimState));
    DimCommit(st, None, ack1);
    var first := Dim(st, None, ack1).state;
    assert first.connected;
    OwnAckConfirms(DimCmd, DimPayload(st.dimState));
    DimCommit(first, None, Some(ExpectedAck(DimCmd, DimPayload(st.dimState))));
  }

  /** A confirmed `Dim(True)` leaves DIM on, and repeating it keeps it on. */
  lemma DimOnRepeated(st: DeviceState)
    requires st.connected
    ensures var ack := Some(ExpectedAck(DimCmd, 0x01));
      var first := Dim(st, Some(true), ack).state;
      first.dimState && Dim(first, Some(true), ack).state.dimState
  {
    var ack := Some(ExpectedAck(DimCmd, 0x01));
    OwnAckConfirms(DimCmd, 0x01);
    DimCommit(st, Some(true), ack);
    var first := Dim(st, Some(true), ack).state;
    assert first.connected;
    DimCommit(first, Some(true), ack);
  }

  /** Source names are matched without regard to case and stored lower-cased. */
  lemma SetSourceStoresLowercase(st: DeviceState)
    requires st.connected
    ensures SetSource(st, "AES2", Some(ExpectedAck(SourceCmd, 0x01))).state.source == "aes2"
  {
    assert Lower("AES2") == "aes2";
    OwnAckConfirms(SourceCmd, 0x01);
    SetSourceCommit(st, "AES2", Some(ExpectedAck(SourceCmd, 0x01)));
  }
}
