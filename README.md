# DP564 remote control — verified model

A Dafny model of the remote control for a Dolby DP564 reference decoder
(`dp564_remote.py`). The remote opens a TCP connection to the decoder (port 4444),
sends a two-part handshake, waits for the decoder's initial data dump (which ends
once a keep-alive packet has been seen), and then runs two background threads: a
listener that classifies every received buffer and updates the remote's view of the
device (volume, last reply), and a keep-alive sender. The operator sets the master
volume in dB, switches DIM (mute) on, off or toggles it, and selects the input
source; each command is written as a 4-byte preamble followed by a 6-byte typed
command, and the remote commits the new value only when the decoder's reply ends
with the matching acknowledgement.

The model has eight modules:

- `Wrappers` (`wrappers.dfy`): `Option`, standing for Python's `None`.
- `Bytes` (`bytes.dfy`): the byte type and the `bytes` operations the code uses
  (`startswith`, `endswith`, `in`, concatenation of received chunks).
- `Text` (`text.dfy`): `str.lower()` on ASCII letters.
- `Protocol` (`protocol.dfy`): the constant frames, the dB/byte conversion, the
  assembly of commands and expected acknowledgements, and a decoder for the
  outbound bytes that serves as the encoder's inverse.
- `Inbound` (`inbound.dfy`): the listener's classification of one received buffer.
- `Session` (`session.dfy`): the remote's state as a value (`DeviceState`) and the
  effect of each event on it, as functions, with the lemmas about them.
- `Remote` (`remote.dfy`): the class `Dp564Remote`, whose methods update the fields
  in place and record every byte written in `sent`; each method is proved to do
  what the matching `Session` function says. It also holds the initial-dump loop.
- `Console` (`console.dfy`): the operator command words mapped to an intent,
  and an intent carried out on the remote.

Inputs the program takes from the outside world are parameters: whether the device
accepted the connection, the sequence of reads during the initial dump, the buffers
the listener receives, and the buffer (if any) that arrives while a command waits
for its acknowledgement. Numbers are exact `real`s.

Behaviours of the code that the model keeps as they are:

- The listener recognises the keep-alive by equality with `00 00 00 05 04`, not as
  a prefix, and the other frames by prefix alone with no length check: a bare
  10-byte update prefix is read as volume byte `0x00`, i.e. -96.0 dB, outside the
  valid range (`Inbound.BareUpdatePrefix`).
- The listener records a DIM acknowledgement as the last reply and does not set the
  DIM state; only the `Dim` command commits it (`Session.DimAckOnlyRecorded`).
- dB is converted to a byte with `int()` (truncation toward zero), and a confirmed
  `SetVolumeDb` stores the requested level, which need not be a multiple of 0.5 dB
  (`Session.SetVolumeDbStoresRequest`).
- The acknowledgement a command waits for is handled by the listener first: a
  buffer starting with the volume-update prefix never confirms a command, and a
  volume acknowledgement with a different level still moves `volume_db` through the
  listener even though the command does not commit.

The program is given the device's address (`DP564_IP`, passed to the constructor,
dp564_remote.py:314-316) and does no address classification or subnet discovery.

## Model

| member | source | states |
|---|---|---|
| `Protocol.FrameLayout` | dp564_remote.py:10-41 | The constant frames: the keep-alive is the first handshake message plus `04`; the four 10-byte reply prefixes share five bytes and differ in the seventh; the three 5-byte command prefixes are pairwise different. |
| `Protocol.TruncateTowardZero` | dp564_remote.py:194 | Python's `int()` on a number: the result is the integer between zero and the argument within distance less than one. |
| `Protocol.DbToByte` | dp564_remote.py:190-195 | Every level in [-95.0, 0.0] encodes to a byte in [2, 192], so `bytes([value])` cannot fail. |
| `Protocol.ByteToDb` | dp564_remote.py:144-145 | `(b - 192) / 2.0` lies in [-96.0, 31.5]; the byte is in [2, 192] exactly when the level is in [-95.0, 0.0]. |
| `Protocol.ByteToDbIsHalfStep` | dp564_remote.py:155 | Every level decoded from a byte is a whole number of half-dB steps. |
| `Protocol.VolumeDbRoundTrip` | dp564_remote.py:194 | For every half-dB step in [-95.0, 0.0], decoding the encoded byte gives the level back. |
| `Protocol.VolumeByteRoundTrip` | dp564_remote.py:145 | For every byte, encoding the level it decodes to gives the byte back. |
| `Protocol.DbToByteQuantises` | dp564_remote.py:194 | A level in range is sent as the half-dB step at or just below it (within 0.5 dB). |
| `Protocol.DimAcksDiffer` | dp564_remote.py:230-243 | The acknowledgement expected for DIM on differs from the one expected for DIM off, so a reply confirms at most one of the two targets. |
| `Protocol.SourceMapPayloads` | dp564_remote.py:33-38 | The four source names select four distinct payloads, each at most 3. |
| `Protocol.OutboundRoundTrip` | dp564_remote.py:203-205 | Preamble plus typed command is ten bytes and decodes back to the command kind and payload it was built from. |
| `Protocol.DecodeOutboundExact` | dp564_remote.py:195 | Only bytes built as preamble + prefix + payload decode as a command. |
| `Protocol.OutboundInjective` | dp564_remote.py:229 | Two commands with the same bytes have the same kind and payload. |
| `Protocol.AckIdentifiesCommand` | dp564_remote.py:196 | An expected acknowledgement ends with another command's expected acknowledgement only if kind and payload are equal, so a command is never confirmed by another command's reply. |
| `Inbound.Classify` | dp564_remote.py:133-155 | Empty read means closed; equality with the keep-alive means heartbeat; the update prefix means a level from the last byte; anything else is a reply, carrying a level from its last byte exactly when it starts with the volume-ack prefix. |
| `Inbound.ClassifyDeviceFrames` | dp564_remote.py:139-155 | The update frame, the three acknowledgement frames and the keep-alive are each recognised as what they are, with their trailing byte. |
| `Inbound.HeartbeatIsExactMatch` | dp564_remote.py:139-140 | A keep-alive followed by further bytes is not ignored: it becomes a reply. |
| `Inbound.BareUpdatePrefix` | dp564_remote.py:143-145 | The update prefix alone reports byte `00`, i.e. -96.0 dB. |
| `Session.Receive` | dp564_remote.py:139-159 | The listener never changes the DIM state or the source. |
| `Session.ReceiveEffects` | dp564_remote.py:130-159 | Per buffer: the keep-alive changes nothing; an empty read disconnects; an update sets the volume from the last byte and leaves the last reply; any other buffer becomes the last reply and, when a volume ack, sets the volume; other buffers leave the volume. |
| `Session.VolumeAckExample` | dp564_remote.py:153-155 | `00 00 00 0b 04 03 12 01 02 00 AC` sets the volume to -10.0 dB. |
| `Session.DimAckOnlyRecorded` | dp564_remote.py:150-159 | `00 00 00 0b 04 05 13 01 02 00 01` only becomes the last reply; the DIM state stays. |
| `Session.Replay` | dp564_remote.py:130-159 | However many buffers the listener loop handles, DIM state and source are unchanged. |
| `Session.ReplayConnected` | dp564_remote.py:130-137 | A connected session stays connected through the listener loop exactly when no read is empty. |
| `Session.ReplayStopsAtClose` | dp564_remote.py:133-137 | Buffers after the first empty read have no effect: the loop has stopped. |
| `Session.DumpSucceeds` | dp564_remote.py:102-108 | A successful initial dump implies the keep-alive occurs contiguously in the concatenation of all reads. |
| `Session.EmptyChunkBeforeHeartbeatFails` | dp564_remote.py:102-107 | An empty read arriving before the keep-alive has appeared makes the initial dump fail. |
| `Session.HeartbeatAcrossChunks` | dp564_remote.py:102-108 | The keep-alive is found in the accumulated buffer even when split across two reads. |
| `Session.Connect` | dp564_remote.py:80-124 | Connecting changes only the connection flag, which ends up set exactly when the device accepted and the initial dump succeeds (then the keep-alive is in the reads); `00 00 00 05` then `03` is written when accepted, nothing when refused. |
| `Session.EmptyChunkFirstLeavesDisconnected` | dp564_remote.py:100-124 | An empty read before the keep-alive has appeared leaves the remote disconnected, whether or not the device accepted. |
| `Session.Await` | dp564_remote.py:199-208 | The ack wait leaves DIM state and source alone; with no arriving buffer it only clears `last_ack`; a `last_ack` set afterwards is the arriving buffer itself. |
| `Session.AwaitMatchesIffConfirms` | dp564_remote.py:199-210 | After clearing `last_ack` and letting the listener handle the arriving buffer, `last_ack` ends with the expected ack exactly when that buffer ends with it and does not start with the update prefix. |
| `Session.SetVolumeDb` | dp564_remote.py:185-216 | Bytes are written exactly when connected with a level in [-95.0, 0.0]; DIM state and source never change. |
| `Session.Dim` | dp564_remote.py:221-249 | Bytes are written exactly when connected; the source never changes; a changed DIM state is the requested target. |
| `Session.SetSource` | dp564_remote.py:254-285 | Bytes are written exactly when connected and the lower-cased name is a known source; DIM never changes; a changed source is that lower-cased, known name. |
| `Session.RejectedCommandsAreSilent` | dp564_remote.py:189-192 | Disconnected, volume outside [-95.0, 0.0], or unknown lower-cased source name (also :225, :258-262): nothing written, state unchanged. |
| `Session.SetVolumeDbWrites` | dp564_remote.py:194-205 | A valid volume command writes exactly `00 00 00 0a 02 03 12 00 00 v` with v in [2, 192]. |
| `Session.DimWrites` | dp564_remote.py:226-238 | A DIM command writes exactly `00 00 00 0a 02 05 13 00 00` then the payload of the target: `01` for on, `00` for off (the constants at dp564_remote.py:25-26). |
| `Session.SetSourceWrites` | dp564_remote.py:259-274 | A valid source command writes exactly `00 00 00 0a 02 03 01 00 00` then the source's payload, at most 3. |
| `Session.NoAckNoCommit` | dp564_remote.py:208-216 | With no acknowledgement a command that passed its checks changes only `last_ack`, which it cleared; a rejected one changes nothing. |
| `Session.SetVolumeDbCommit` | dp564_remote.py:208-214 | The whole new state: the state the ack wait produced, with the requested level stored exactly when the arriving buffer confirms the command. |
| `Session.SetVolumeDbStoresRequest` | dp564_remote.py:210-212 | Asking for -20.25 dB sends byte 151 (-20.5 dB) and, once confirmed, records -20.25 dB. |
| `Session.DimCommit` | dp564_remote.py:241-247 | The whole new state: the state the ack wait produced, with the DIM state set to the target exactly when the arriving buffer confirms, else the old DIM state. |
| `Session.SetSourceCommit` | dp564_remote.py:277-283 | The whole new state: the state the ack wait produced, with the source set to the lower-cased name exactly when the arriving buffer confirms, else the old source. |
| `Session.OwnAckConfirms` | dp564_remote.py:196 | The acknowledgement built from a command's own payload confirms that command. |
| `Session.DimToggleTwice` | dp564_remote.py:226-245 | Two confirmed toggles: the first inverts the DIM state, the second restores it. |
| `Session.DimOnRepeated` | dp564_remote.py:226 | A confirmed `Dim(True)` turns DIM on and repeating it keeps it on. |
| `Session.SetSourceStoresLowercase` | dp564_remote.py:259-281 | `SetSource("AES2")`, confirmed, stores `"aes2"`. |
| `Text.Lower` | dp564_remote.py:259 | `lower()` keeps the length, turns each character into itself or, for a capital, its own small letter, leaves no capital, and leaves a name without capitals unchanged. |
| `Text.LowerIsCaseInsensitiveMatch` | dp564_remote.py:259 | Every capitalisation of a lower-case name, such as a source name or command word, lower-cases to that name. |
| `Text.LowerIdempotent` | dp564_remote.py:259 | Lower-casing a name twice is lower-casing it once. |
| `Bytes.ConcatAppend` | dp564_remote.py:108 | Appending a received chunk to the buffer appends exactly its bytes. |
| `Remote.AwaitInitialDump` | dp564_remote.py:100-108 | The dump loop succeeds exactly when the keep-alive appears contiguously in the concatenated reads before any empty read. |
| `Remote.Dp564Remote.constructor` | dp564_remote.py:52-78 | Starts from volume 0.0, DIM off, source "aes1", no reply, port 4444 unless another is given, then connects. |
| `Remote.Dp564Remote.Connect` | dp564_remote.py:80-124 | Refused: disconnected, nothing sent. Accepted: both handshake messages sent; connected exactly when the dump succeeds; device state untouched. |
| `Remote.Dp564Remote.HandlePacket` | dp564_remote.py:133-159 | Updates the fields exactly as `Session.Receive` says. |
| `Remote.Dp564Remote.Listen` | dp564_remote.py:126-168 | Handles the buffers in order until the first empty one, as `Session.Replay` says. |
| `Remote.Dp564Remote.AwaitAckAfterSending` | dp564_remote.py:199-208 | Clears the last reply, writes preamble then typed command back to back, then lets the listener handle the arriving buffer. |
| `Remote.Dp564Remote.SetVolumeDb` | dp564_remote.py:185-216 | New fields and written bytes are those of `Session.SetVolumeDb`. |
| `Remote.Dp564Remote.Dim` | dp564_remote.py:221-249 | New fields and written bytes are those of `Session.Dim`. |
| `Remote.Dp564Remote.SetSource` | dp564_remote.py:254-285 | New fields and written bytes are those of `Session.SetSource`. |
| `Remote.Dp564Remote.SendHeartbeat` | dp564_remote.py:174-178 | One round of the keep-alive thread writes `00 00 00 05 04` when connected and nothing otherwise. |
| `Remote.Dp564Remote.Disconnect` | dp564_remote.py:290-303 | Only the connection flag changes; the last known device state is kept. |
| `Console.Dispatch` | dp564_remote.py:329-350 | Nothing exactly for an empty line; quit exactly for `q`/`quit`; a DIM intent exactly for `dim`, on for `on`, off for `off`, a toggle for any other or no argument; status exactly for `status`; a volume intent exactly from `volume` and an argument that parses, carrying the parsed number; a source intent exactly from `source` and an argument, carrying it lower-cased. |
| `Console.DispatchIgnoresCase` | dp564_remote.py:329 | The line is lower-cased first, so letter case never changes the decision. |
| `Console.DispatchCommands` | dp564_remote.py:329-350 | Empty line: nothing; `q`/`quit`: quit; `dim`, `dim on`, `dim off`: toggle, on, off; `volume` or `source` without argument: a complaint; `source x`: source x lower-cased; `status`: status. |
| `Console.Perform` | dp564_remote.py:331-350 | Each intent runs the matching command on the remote (quit only reports quitting; status and complaints change nothing). |

## Left out

- Sockets: connecting, time-outs, `sendall` and `recv` are replaced by parameters
  (whether the connection was accepted, the reads) and by the `sent` log.
- Threads, `threading.Event`, the lock and `stop_event`: the listener and keep-alive
  threads run concurrently with commands in the program; the model lets the
  listener handle exactly one buffer (the optional `ack`) during a command's wait,
  so other interleavings (several buffers during one wait, a keep-alive written
  between preamble and command) are not modelled.
- Delays (`time.sleep`) and the 2 s, 5 s, 10 s time-outs: a missing acknowledgement
  is `None`, and running out of reads during the dump stands for the read time-out
  that ends in the exception handler.
- Exceptions raised by a failing `sendall`: the model assumes writes succeed. In a
  command such a failure calls `disconnect()`; during the handshake writes
  (dp564_remote.py:94-96) it reaches the handler at :122-124 and leaves
  `is_connected` False, whereas `Dp564Remote.Connect` with `accepted` always
  completes the handshake. Likewise, listener errors other
  than an empty read (which end the loop and clear `is_connected`) are not modelled.
- `Dim(value)` applies Python's `bool()` to any argument (dp564_remote.py:226, so
  `Dim("off")` turns DIM on); the model takes `Option<bool>`, `None` for no argument.
- `print` output, `__del__`, the thread joins in `disconnect`, the `host` and
  `port` beyond being stored.
- The interactive `while remote.is_connected` loop, `input()` and `float()` parsing:
  the words of one line and a parsing function are parameters.
- IEEE floating point: levels are exact reals; the round trip is stated for
  half-dB steps, where Python floats are exact too. `DbToByteQuantises` is about
  exact levels: with floats a level such as -2^-60 dB rounds to 192.0 in
  `db_level * 2 + 192` and is sent as byte 192, not 191.
- `Text.Lower`: only ASCII letters are lower-cased; for membership in the source map
  this is exact, and a name outside the map is never stored.
- Address classification and subnet discovery: the program is given the device's
  address (`DP564_IP`, dp564_remote.py:314-316) and does neither.
