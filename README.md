# GC2 Connect tools, modelled in Dafny

This project models the test tools of GC2 Connect, a bridge between the Foresight GC2 golf
launch monitor and the GSPro golf simulator. It also models the GSPro Open Connect client.
The tools are:

- **The mock GSPro server** (`tools/mock_gspro_server.py`). It accepts GSPro Open Connect
  messages over TCP. Each connection keeps a text buffer. Balanced `{...}` objects are cut
  out of that buffer by a brace-matching scanner that knows about JSON strings and escapes.
  Each message is sorted into heartbeat, status or shot. Only shots get an answer: a
  code-201 response. Modules `FrameExtractor` (the scanner) and `MockGSProServer` (the
  dispatcher, the read loop and the class `MockServer` with its counters).
- **The GC2 simulator** (`tools/gc2_simulator.py`). It builds the launch monitor's text
  messages: a `0H` shot reading and a `0M` device status. These are `KEY=VALUE` lines joined
  by newlines and ending in `"\n\t"`. It cuts each message into 64-byte USB-style packets
  and writes them to every client with a short sleep between packets. A shot goes to each
  client as an early reading without spin, then a final reading with spin. Module
  `Gc2Simulator`, class `Simulator`. The packet burst shared with the stress tester is in
  module `Packets`.
- **The packet-loss stress tester** (`tools/packet_loss_test.py`). It fires a numbered run
  of shots with aggressive packet timing and keeps statistics of what it sent. Each shot's
  spin is derived from its id, so a receiver can tell which shot a reading came from.
  Module `PacketLossTest`, class `StressTester`.
- **The GSPro client** (`docs/python_gspro_client.py`). This is the state machine behind
  `connect`, `disconnect`, `send_shot`, `send_heartbeat` and `send_status`. Every send goes
  through one discipline in `_send_message`: drain stale input, send, and optionally read
  one reply. Each socket exception class is mapped to an outcome, and registered callbacks
  are notified. Module `GSProConnect`, class `GSProClient`.

Modules `Text` and `Json` hold the string operations the tools use and a JSON value type.
The string operations are `lstrip`, `find`, `"\n".join`, `list.remove`, decimal integers
and UTF-8 encoding. `Json` also has a reference serializer used to state what the scanner
frames.

How the outside world appears:

- Sockets, sleeps and writes are events in a trace.
  - Simulator and tester: `Packets.Event` is a packet to a client or a sleep of some
    milliseconds.
  - Server: `MockGSProServer.ServerEvent` is a sleep, a response written, or the connection
    closed.
  - Client: `GSProConnect.Event` is a message sent, a callback called, or a callback that
    raised.
- What the socket *returns* is an input script:
  - the server's reads are `Read`;
  - the client's drain reads, send result and reply are `Exchange`.
- Clients are identified by a number standing for their stream writer.
- `json.loads` and the client's reply decoding are function parameters: `decode` and
  `parse`. `decode` has three outcomes: an object, `JSONDecodeError`, or any other exception
  (`RecursionError` on very deep nesting, `ValueError` on an over-long integer literal).
- Random shot readings are a parameter (`generate`, `draw`). Formatted float readings are
  carried as the text they are formatted to.

Each class method is proved against a specification function of the old state, such as
`Drain`, `Serve`, `SendMessageSpec`, `ShotRound` or `RunTrace`. The lemmas state what the
source promises about those functions.

## Model

| member | source | states |
|---|---|---|
| Text.LStripSpec | tools/mock_gspro_server.py:86 | `lstrip` removes exactly the leading whitespace: the result is a suffix, everything dropped is whitespace, and what is left does not start with whitespace |
| Text.Find | tools/mock_gspro_server.py:101 | `find(c, from)` is the first index at or after `from` holding `c`, and -1 exactly when there is none |
| Text.RemoveFirstSpec | tools/gc2_simulator.py:143 | `list.remove(x)` deletes the first occurrence of `x` and keeps every other element in order |
| Text.JoinSplit | tools/gc2_simulator.py:224 | splitting at a separator and joining again gives back the text |
| Text.SplitJoin | tools/gc2_simulator.py:224 | joining lines that contain no separator and splitting again gives back the lines |
| Text.DecimalRoundTrip | tools/gc2_simulator.py:183 | the decimal text of an integer (`f"{n}"`) reads back as that integer |
| Text.DecimalHasNoNewline | tools/gc2_simulator.py:183 | the decimal text of an integer never contains a newline, so it cannot break a message line |
| Text.Utf8Encode | tools/gc2_simulator.py:149 | `encode("utf-8")` gives at least one byte per character, and exactly the character codes for ASCII text |
| Json.GetSpec | tools/mock_gspro_server.py:161 | `dict.get` finds nothing exactly when no member has the key; otherwise it gives the value of the last member with that key, as a decoded object keeps it |
| Json.EmitObject | tools/mock_gspro_server.py:93 | a serialized object starts with `{` and ends with `}` |
| FrameExtractor.ExtractJson | tools/mock_gspro_server.py:114-157 | the scanning loop computes `ExtractSpec`; a found object has end index in `1..len(buffer)`; a buffer without `{` gives `(None, len(buffer))` |
| FrameExtractor.MatchBraces | tools/mock_gspro_server.py:127-157 | the loop over depth, in-string and escape returns at the first closing brace, with the span decoded (an object, a `JSONDecodeError`, or another decoder exception), and `(None, 0)` when it never closes |
| FrameExtractor.CloseFromSpec | tools/mock_gspro_server.py:148-155 | the reported end is the first character where an unescaped `}` outside strings takes depth from 1 to 0; no earlier character does, and with no end no character does |
| FrameExtractor.StepRules | tools/mock_gspro_server.py:132-146 | an unescaped `"` toggles in-string, other characters inside a string change nothing, and the character after `\` is skipped and never closes |
| FrameExtractor.StringTransparent | tools/mock_gspro_server.py:132-146 | a serialized JSON string, whatever braces, quotes or backslashes it contains, leaves depth, in-string and escape as they were |
| FrameExtractor.ValueTransparent | tools/mock_gspro_server.py:128-155 | inside an object, a serialized JSON value of any shape returns the scanner to the state it started in without closing |
| FrameExtractor.ObjectFramed | tools/mock_gspro_server.py:148-155 | scanning a serialized object closes exactly at its last character |
| FrameExtractor.ExtractFramed | tools/mock_gspro_server.py:148-155 | a serialized object followed by anything is extracted as that object, with end index its length |
| FrameExtractor.ExtractPrefixIncomplete | tools/mock_gspro_server.py:157 | every proper prefix of a serialized object is incomplete: `(None, 0)` |
| FrameExtractor.ExtractAfterNoise | tools/mock_gspro_server.py:120-125 | with noise before the first `{`, the object is still found, but the end index is its length in the re-sliced buffer |
| FrameExtractor.ExtractFixed | tools/mock_gspro_server.py:120-125 | corrected extraction: same cases as `_extract_json` (index within the buffer, no `{` gives `len(buffer)`) |
| FrameExtractor.FixedConsumesObject | tools/mock_gspro_server.py:120-125 | corrected extraction: after noise and an object, the end index points just past the object in the caller's buffer |
| MockGSProServer.Options | tools/mock_gspro_server.py:161 | missing `ShotDataOptions` means an empty options object |
| MockGSProServer.ClassifyPriority | tools/mock_gspro_server.py:161-189 | heartbeat iff `IsHeartBeat`; status iff not heartbeat and no `ContainsBallData`; shot iff not heartbeat and `ContainsBallData` |
| MockGSProServer.MissingOptionsIsStatus | tools/mock_gspro_server.py:161-164 | a message without options is a status update (missing flags are false) |
| MockGSProServer.OneCounterPerMessage | tools/mock_gspro_server.py:168-189 | each dispatched message increments exactly its own counter and no other; a message that raises while reading its options counts nothing |
| MockGSProServer.OnlyShotsRespond | tools/mock_gspro_server.py:176-240 | there is a response iff the message is a shot whose logged fields format (each is absent, a boolean, or an integer of magnitude below 2^1024 - 2^970, which converts to a float); it is always the shot response; it raises iff the options are unreadable or a shot's fields do not format |
| MockGSProServer.LargeSpeedRaises | tools/mock_gspro_server.py:193-202 | a shot whose ball speed is an integer counts as a shot, and is answered iff the speed's magnitude is below 2^1024 - 2^970; at or above it `{speed:.1f}` raises `OverflowError` and there is no response |
| MockGSProServer.ShotResponseFields | tools/mock_gspro_server.py:230-238 | the response is Code 201, Message "Shot received", Player RH / DR / 250 |
| MockGSProServer.NoBraceKeepsBuffer | tools/mock_gspro_server.py:83-84 | a buffer without `{` is kept unchanged and nothing is dispatched or written |
| MockGSProServer.IncompleteKeepsBuffer | tools/mock_gspro_server.py:83-84 | a proper prefix of an object is kept whole, waiting for more data |
| MockGSProServer.DecodeErrorSkipsToNextBrace | tools/mock_gspro_server.py:98-106 | on a decode error the buffer becomes the suffix from the first `{` at index 1 or later (empty if none), and that read's processing stops |
| MockGSProServer.Drain | tools/mock_gspro_server.py:79-106 | the inner loop writes and sleeps only in answer to dispatched messages: with none dispatched the counters and output are unchanged, and each message adds at most the delay and one write |
| MockGSProServer.DrainConsumesFront | tools/mock_gspro_server.py:86-104 | the buffer left by the inner loop is always a suffix of the one it was given: slicing, `lstrip` and recovery only drop a prefix |
| MockGSProServer.DecoderExceptionCloses | tools/mock_gspro_server.py:82-111 | a decoder exception other than `JSONDecodeError` passes the loop's handler and closes the connection, with nothing dispatched, the counters unchanged and the buffer kept |
| MockGSProServer.DrainFramed | tools/mock_gspro_server.py:82-96 | a serialized object at the front is dispatched and the loop continues on the stripped rest |
| MockGSProServer.DrainLastObject | tools/mock_gspro_server.py:86-96 | a buffer holding one object ends empty, with that object dispatched and its reply written |
| MockGSProServer.TwoObjectsInOrder | tools/mock_gspro_server.py:86 | two concatenated objects are dispatched in order and the buffer ends empty |
| MockGSProServer.DrainAccounting | tools/mock_gspro_server.py:79-96 | over a whole drain the counters rise by one per dispatched message, every write is the shot response to this connection, every sleep is the response delay, and writes never outnumber shots |
| MockGSProServer.NoiseMakesObjectReparse | tools/mock_gspro_server.py:86 | as written: noise as long as the object before it makes the same object dispatched twice |
| MockGSProServer.NoisyBufferReparses | tools/mock_gspro_server.py:125 | as written: the buffer `ab{}` dispatches `{}` twice |
| MockGSProServer.MockServer.constructor | tools/mock_gspro_server.py:39-43 | the counters start at zero |
| MockGSProServer.MockServer.ProcessMessage | tools/mock_gspro_server.py:159-240 | the counters and reply are those of `Process`, and a response is preceded by the response-delay sleep |
| MockGSProServer.MockServer.DrainOnce | tools/mock_gspro_server.py:80-106 | one pass of the inner loop is one unfolding of `Drain`, and the buffer shrinks when the loop goes on |
| MockGSProServer.MockServer.DrainBuffer | tools/mock_gspro_server.py:79-106 | the inner loop leaves counters, buffer, events, dispatched messages and the open flag as `Drain` says |
| MockGSProServer.MockServer.HandleClient | tools/mock_gspro_server.py:67-112 | reading a script of chunks leaves the state `Serve` says; end of stream, undecodable bytes, a failed read, a decoder exception other than `JSONDecodeError` or a raising dispatch close the connection |
| Packets.ChunksReassemble | tools/gc2_simulator.py:153-157 | the chunks, joined in order, are the encoded message |
| Packets.ChunksSizes | tools/gc2_simulator.py:155 | every chunk but the last has exactly `packet_size` bytes, and the last has 1 to `packet_size` |
| Packets.ChunksCount | tools/gc2_simulator.py:153-157 | there are ceil(len / `packet_size`) chunks, and none for an empty message |
| Packets.BurstDelivers | tools/gc2_simulator.py:153-173 | a burst carries exactly the chunks to its client and nothing to others, one packet per chunk, and a gap only between packets |
| Gc2Simulator.RenderParse | tools/gc2_simulator.py:224 | a message whose values have no newline reads back as its header and its `KEY=VALUE` pairs in order |
| Gc2Simulator.ShotMessageReadsBack | tools/gc2_simulator.py:177-224 | the `0H` text reads back as header `0H` and the shot's fields, and ends in `"\n\t"` |
| Gc2Simulator.ShotSections | tools/gc2_simulator.py:181-221 | the fields come in order: 7 head lines, the spins if asked for, 4 position lines, then the club lines |
| Gc2Simulator.ShotMessageIdentity | tools/gc2_simulator.py:183-185 | `SHOT_ID` is the shot id and `MSEC_SINCE_CONTACT` the given time |
| Gc2Simulator.ShotMessageSpin | tools/gc2_simulator.py:192-198 | `BACK_RPM` and `SIDE_RPM` are present iff spin is included, with the shot's values |
| Gc2Simulator.ShotMessageClub | tools/gc2_simulator.py:210-221 | `HMT=1` with the club speed, and `HPATH_DEG`, `VPATH_DEG` and `FACE_T_DEG` each exactly when its reading is set, iff a club speed is present; otherwise `HMT=0` and none of the club lines |
| Gc2Simulator.StatusMessageContents | tools/gc2_simulator.py:226-234 | `FLAGS` and `BALLS` carry the arguments, and `BALL1` is present iff balls > 0 |
| Gc2Simulator.StatusMessageReadsBack | tools/gc2_simulator.py:226-236 | the `0M` text reads back as header `0M` and its fields, and ends in `"\n\t"` |
| Gc2Simulator.ClubFor | tools/gc2_simulator.py:255-262 | an unknown shot type fires a driver shot |
| Gc2Simulator.Simulator.constructor | tools/gc2_simulator.py:97-103 | the timing is as configured, the shot id is 0, and there are no clients and no trace |
| Gc2Simulator.Simulator.SendPackets | tools/gc2_simulator.py:147-175 | the trace grows by the message's packets with a packet-delay sleep between consecutive packets and none after the last |
| Gc2Simulator.Simulator.SendDelivers | tools/gc2_simulator.py:147-173 | a send delivers the message's encoding to its client and nothing to any other |
| Gc2Simulator.Simulator.Connect | tools/gc2_simulator.py:129-133 | a new client joins the list and receives the ready status `FLAGS=7, BALLS=1` |
| Gc2Simulator.Simulator.Disconnect | tools/gc2_simulator.py:143 | a leaving client's first occurrence is removed from the list |
| Gc2Simulator.Simulator.FireShot | tools/gc2_simulator.py:246-292 | with no clients nothing changes; otherwise the shot id rises by exactly 1 and every client gets the early reading, then the final reading, of a shot carrying the new id |
| Gc2Simulator.Simulator.SendReadings | tools/gc2_simulator.py:274-290 | the clients are served in list order, each with its reading pair |
| Gc2Simulator.Simulator.SendPair | tools/gc2_simulator.py:275-290 | early reading fully sent, then the final-reading delay, then the final reading |
| Gc2Simulator.Simulator.PairDelivers | tools/gc2_simulator.py:277-290 | a client's pair delivers exactly the early then the final reading's bytes to that client |
| Gc2Simulator.Simulator.ShotRoundDelivers | tools/gc2_simulator.py:274-290 | a client receives the early-then-final bytes once per time it appears in the list |
| Gc2Simulator.Simulator.ShotRoundSleeps | tools/gc2_simulator.py:100 | a shot sleeps only the packet delay and the final-reading delay; the early-reading delay is never slept |
| Gc2Simulator.Simulator.SendStatus | tools/gc2_simulator.py:294-299 | every client gets the status with flags 7 if ready else 1, and balls 1 if a ball else 0 |
| Gc2Simulator.Simulator.SendToAll | tools/gc2_simulator.py:298-299 | one message is sent to each client in list order |
| PacketLossTest.SameAsSimulator | tools/packet_loss_test.py:136-178 | the tester's message is the simulator's message for the same readings without club data |
| PacketLossTest.ShotMessageContents | tools/packet_loss_test.py:149-176 | the id, time and total spin are present; back and side spin iff spin is included; `HMT=0` always and no club speed |
| PacketLossTest.ShotMessageReadsBack | tools/packet_loss_test.py:136-178 | the message reads back as header `0H` and its fields, and ends in `"\n\t"` |
| PacketLossTest.TrackedSpins | tools/packet_loss_test.py:196-198 | the final reading carries back spin 2500 + id, side spin id - 200 and total back + abs(side); the early reading has no back or side spin |
| PacketLossTest.SpinTextIdentifiesShot | tools/packet_loss_test.py:196-197 | different shots never carry the same back-spin or side-spin text |
| PacketLossTest.StressTester.constructor | tools/packet_loss_test.py:70-76 | the timing is as configured, the statistics are zero, and there are no clients and no trace |
| PacketLossTest.StressTester.Connect | tools/packet_loss_test.py:100 | a new client joins the list |
| PacketLossTest.StressTester.Disconnect | tools/packet_loss_test.py:110-111 | a leaving client is removed once if still listed; otherwise the list is unchanged |
| PacketLossTest.StressTester.PacketTraceDelivers | tools/packet_loss_test.py:121-130 | a send delivers exactly the encoding to its client, one packet per chunk, and sleeps between packets only when the delay is positive |
| PacketLossTest.StressTester.SendPackets | tools/packet_loss_test.py:115-134 | returns ceil(len / `packet_size`), appends the packets, and adds that count and the byte length to the statistics |
| PacketLossTest.StressTester.RunTest | tools/packet_loss_test.py:180-229 | with no clients nothing changes (not even the statistics); otherwise the statistics restart and end with num_shots shots, num_shots * clients early and final readings, and packet and byte totals of the whole run |
| PacketLossTest.StressTester.RunShot | tools/packet_loss_test.py:190-229 | one shot sends its round to every client, counts one shot, and then sleeps the inter-shot delay |
| PacketLossTest.StressTester.SendShot | tools/packet_loss_test.py:204-224 | each client gets early then final reading of the shot; readings, packets and bytes are counted per client |
| PacketLossTest.StressTester.SendReadings | tools/packet_loss_test.py:204-224 | the clients are served in list order and every client adds one early and one final reading |
| PacketLossTest.StressTester.SendPair | tools/packet_loss_test.py:205-224 | early reading, 50 ms pause, final reading, each counted with its packets and bytes |
| PacketLossTest.StressTester.ClientRoundCounts | tools/packet_loss_test.py:205-224 | a client's pair holds the packets and bytes of both readings |
| PacketLossTest.StressTester.ClientRoundDelivers | tools/packet_loss_test.py:205-224 | a client's pair delivers the early reading's bytes, then the final reading's, to that client only |
| PacketLossTest.StressTester.ShotRoundDelivers | tools/packet_loss_test.py:204-224 | a client receives one early-then-final pair per time it appears in the list |
| PacketLossTest.StressTester.RunDelivers | tools/packet_loss_test.py:190-229 | a client receives the pairs of shots 1, 2, ..., num_shots in increasing order |
| GSProConnect.StatusOptions | docs/python_gspro_client.py:170-179 | a status has both data flags false, is no heartbeat, and carries ready and ball detected from the argument |
| GSProConnect.ResponseCallsInOrder | docs/python_gspro_client.py:61-67 | every response callback is called once, in registration order, and one that raises does not stop the rest |
| GSProConnect.DisconnectCallsInOrder | docs/python_gspro_client.py:78-84 | every disconnect callback is called once, in registration order, and one that raises does not stop the rest |
| GSProConnect.RemoveUndoesAdd | docs/python_gspro_client.py:53-59 | removing a callback that was just added restores the list |
| GSProConnect.DrainFailsSpec | docs/python_gspro_client.py:206-218 | draining fails iff some read raises after reads that each returned data; an empty read or `BlockingIOError` ends it cleanly |
| GSProConnect.SendMessageFrame | docs/python_gspro_client.py:190-268 | a send never changes the shot number, the socket or the callback lists, only appends to the log, and keeps "connected implies a socket" |
| GSProConnect.SentOnce | docs/python_gspro_client.py:220-227 | the message is sent exactly once iff draining and `sendall` succeed, and it is the first event of the send |
| GSProConnect.SendShotWhileDisconnected | docs/python_gspro_client.py:125-129 | without a connection `send_shot` returns None and changes nothing, shot number included |
| GSProConnect.SendShotNumbers | docs/python_gspro_client.py:131-134 | when connected `send_shot` increments the shot number by exactly 1 and sends that number |
| GSProConnect.HeartbeatSent | docs/python_gspro_client.py:136-154 | the heartbeat reuses the shot number, has both data flags false, ready and heartbeat true, and returns None after the send |
| GSProConnect.StatusSent | docs/python_gspro_client.py:156-184 | the status reuses the shot number and carries the status options |
| GSProConnect.UnansweredSends | docs/python_gspro_client.py:226-227 | heartbeat and status return None, keep shot number and player, and never depend on the reply |
| GSProConnect.QuietReplyKeepsConnection | docs/python_gspro_client.py:234-236 | a timeout, an empty reply or a JSON decode error returns None and leaves the connection flag and the player unchanged |
| GSProConnect.UnhandledReplyRaises | docs/python_gspro_client.py:238-243 | a reply whose reading raises an exception no clause catches (bytes that are not UTF-8, or a decoded value that is not a response object) raises out of `_send_message`, after the message was logged as sent |
| GSProConnect.SentCallsNothing | docs/python_gspro_client.py:223 | sending a message calls no callback |
| GSProConnect.SocketErrorDisconnects | docs/python_gspro_client.py:258-265 | an `OSError` anywhere returns None, clears the connection flag and runs the disconnect callbacks iff it was connected |
| GSProConnect.SecondErrorSilent | docs/python_gspro_client.py:260-264 | an `OSError` while already disconnected runs no callback, so they run at most once per connection loss |
| GSProConnect.PlayerOnlyFrom201 | docs/python_gspro_client.py:248-250 | the player changes only to the Player of a returned code-201 response with a truthy Player |
| GSProConnect.ResponseHandled | docs/python_gspro_client.py:247-253 | a returned response keeps the connection flag, sets the player iff code 201 with a truthy Player, and calls every response callback |
| GSProConnect.ConnectRefused | docs/python_gspro_client.py:104-108 | a failed connection leaves no socket, connected false, returns False and sends nothing |
| GSProConnect.ConnectOpened | docs/python_gspro_client.py:88-103 | an opened connection returns True even when the initial heartbeat hit an `OSError`; it stays connected iff the heartbeat got through |
| GSProConnect.DisconnectSilent | docs/python_gspro_client.py:110-119 | `disconnect` drops socket and flag without calling any callback; every operation keeps "connected implies a socket" |
| GSProConnect.GSProClient.constructor | docs/python_gspro_client.py:31-39 | disconnected, no socket, shot number 0, no player, no callbacks |
| GSProConnect.GSProClient.AddResponseCallback | docs/python_gspro_client.py:53-55 | the callback is appended |
| GSProConnect.GSProClient.RemoveResponseCallback | docs/python_gspro_client.py:57-59 | the first occurrence is removed if present, otherwise nothing changes |
| GSProConnect.GSProClient.AddDisconnectCallback | docs/python_gspro_client.py:69-71 | the callback is appended |
| GSProConnect.GSProClient.RemoveDisconnectCallback | docs/python_gspro_client.py:73-76 | the first occurrence is removed if present, otherwise nothing changes |
| GSProConnect.GSProClient.NotifyResponse | docs/python_gspro_client.py:61-67 | the loop logs exactly `ResponseCalls` of the registered callbacks |
| GSProConnect.GSProClient.NotifyDisconnect | docs/python_gspro_client.py:78-84 | the loop logs exactly `DisconnectCalls` of the registered callbacks |
| GSProConnect.GSProClient.ConnectionLost | docs/python_gspro_client.py:258-265 | the `OSError` handler: flag cleared, callbacks run only if it was connected |
| GSProConnect.GSProClient.Drain | docs/python_gspro_client.py:206-218 | the draining loop reports failure exactly as `DrainFails` |
| GSProConnect.GSProClient.SendMessage | docs/python_gspro_client.py:190-268 | state and result are those of `SendMessageSpec` |
| GSProConnect.GSProClient.SendShot | docs/python_gspro_client.py:125-134 | state and result are those of `SendShotSpec` |
| GSProConnect.GSProClient.SendHeartbeat | docs/python_gspro_client.py:136-154 | state and result are those of `SendHeartbeatSpec` |
| GSProConnect.GSProClient.SendStatus | docs/python_gspro_client.py:156-184 | state and result are those of `SendStatusSpec` |
| GSProConnect.GSProClient.Connect | docs/python_gspro_client.py:86-108 | state and result are those of `ConnectSpec` |
| GSProConnect.GSProClient.Disconnect | docs/python_gspro_client.py:110-119 | state is that of `DisconnectSpec` |

## Left out

- Asyncio lifecycle: `start`, `stop`, `serve_forever`, `gather`, and the keep-alive loops of
  the simulator's and tester's `_handle_client`. These are concurrency and I/O. Only the
  list changes (connect, disconnect) and the initial status send are modelled.
- `command_loop`, `argparse`, `main`, `print_stats`, and all logging. These are user interface.
  The spin-warning branches of `_process_message` (`tools/mock_gspro_server.py:209-215`)
  only log. The formatting of the logged fields is kept, since a field that does not format
  raises: a string, list, object or null, or an integer too large to convert to a float.
- Floating point and randomness:
  - `ShotData.driver`, `seven_iron` and `wedge` draw random floats. They are the `generate`
    parameter of `FireShot`, and `draw` in the tester.
  - `:.2f`, `:.0f` and `:.1f` formatting: readings are carried as their formatted text.
  - The tester's spins are integers here. `f"{2500.0 + id:.0f}"` and the decimal text of
    `2500 + id` agree for the ids a run uses.
- `StressTestStats.start_time` and `report`. They depend on the wall clock.
- Time itself: a sleep is a trace event carrying its milliseconds. Nothing models elapsed
  time or interleaving with other connections.
- `json.dumps`, `json.loads` and `JSONDecoder.raw_decode` are not part of this model.
  Decoding is the `decode` and `parse` parameters, and a response written by the server is
  recorded as the object, not its bytes. `Json.Emit` is a reference serializer used only to
  state which texts the scanner frames. JSON numbers are integers here.
- `GSProShotMessage`, `GSProShotOptions`, `GSProResponse` and `GC2ShotData` come from
  `gc2_connect.models`, which is not part of this model. A shot is the opaque `GC2Shot`, and
  `from_dict` is folded into `parse`.
- Sockets:
  - What each `recv`, `sendall` or `create_connection` does is an input (`Exchange`, the
    `opens` flag, `Read`).
  - A partially sent message is not modelled: `Sent` is logged only when `sendall` succeeds.
  - `setblocking`, `settimeout` and `setsockopt` have no modelled effect beyond which
    exceptions each call can raise.
- Gc2Simulator.Simulator.SendPackets, PacketLossTest.StressTester.SendPackets and
  MockGSProServer.MockServer.DrainOnce assume that every write to a client succeeds. In the
  source, `writer.drain()` raises when the peer has gone:
  - in the simulator (`tools/gc2_simulator.py:167-168`) this aborts `fire_shot` or
    `send_status` for the clients not yet served;
  - in the tester (`tools/packet_loss_test.py:126-127`) it aborts `run_test` before that
    message's packets and bytes are added to the statistics (lines 132-133);
  - in the server (`tools/mock_gspro_server.py:94-95`) it reaches the handler at line 108
    and closes the connection.

  The model has no failed-write input, so these cut-short traces and statistics are not
  modelled. The only send failure modelled is the client's `sendall`.
- `GSProConnect.GSProClient`: callbacks are values with a fixed "raises" flag. A callback
  that changes the callback lists while they are iterated is not modelled.
- `GSProConnect.GSProClient`: exceptions outside `Exception` (a `KeyboardInterrupt` in a
  callback) are not modelled.
- The `*_async` wrappers only run the synchronous methods in an executor, and host and port
  only address the socket. Neither is modelled.
- `NativePlugins/macOS/GC2MacPlugin/GC2MacPlugin.h` holds only C declarations. Only its
  64-byte buffer size is used, as `Packets.Gc2BufferSize`.
- A packet size of 0 or less makes the sending loops run forever, so `Packets.PacketSize`
  excludes it.
- `Gc2Simulator.Simulator.Disconnect` requires the client to be listed. The source always
  appends a writer before removing it, and `list.remove` raises otherwise.
- `MockGSProServer.MockServer.HandleClient`: the connection model keeps the extraction as
  written, including the end-index quirk listed under Findings. The corrected extraction is
  stated and proved beside it.

## Findings

| source | as written | input that shows it | evidently intended | confidence | as-written member | corrected member |
|---|---|---|---|---|---|---|
| tools/mock_gspro_server.py:125 | when noise comes before the first `{`, `_extract_json` re-slices its local buffer and returns an end index relative to that slice; the caller (line 86) slices its own, unsliced buffer with it | buffer `ab{}` with a decoder that accepts `{}`: `{}` is dispatched, the buffer becomes `{}`, and `{}` is dispatched a second time | the end index counts from the caller's buffer (start + i + 1), so each object is consumed once | not executed | MockGSProServer.NoisyBufferReparses | FrameExtractor.FixedConsumesObject |
