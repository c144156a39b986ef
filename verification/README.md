# CFGroundControl ground-station core, in Dafny

CFGroundControl is an iPad ground station for a small quadcopter. It talks MAVLink over
UDP. This project models its core as pure functions over immutable data and proves
properties of those functions. The core has seven parts:

- **Bounded history (`RingBuffer`).** The `CircularBuffer` the telemetry charts read. It
  is modelled as slots, `head`, `count` and `capacity`, with an abstraction to "the last
  `capacity` items appended".
- **Link manager (`LinkManager`).** The connection state machine of
  `MAVLinkUDPManager`:
  - connect and discovery retries;
  - transport set-up;
  - the 0.5 s health tick and the heartbeat sender;
  - inbound heartbeats;
  - disconnect;
  - the parameter list;
  - the outbound actions;
  - the receive loop, as a method over the results of `CF_gcs_udp_receive`.
- **Inbound dispatch (`MavParser`).** `CF_gcs_parser_process` and `handle_message`. The
  MAVLink byte framer is a parameter.
- **Outbound builders (`MavBuilder`).** The eight `CF_gcs_build_*` functions. Each has a
  buffer guard and returns an abstract frame (message id, system and component, fields)
  instead of bytes.
- **Home screen view model (`HomeViewModel`, `StatusText`, `ControlShaping`).** It covers:
  - the telemetry sinks, including the `DBG:` / `TARGET:` / `LOOPTIME:` status-text
    sub-protocol;
  - forwarding to the recorder while a session is recorded;
  - the link and arming guards on every command;
  - cleanup when the link drops;
  - deadband and sticky or direct throttle shaping;
  - the maximum-throttle field;
  - the 50 ms manual-control tick with its `Int16` conversions;
  - restoring parameters from the last session.
- **Session recorder (`SessionRecorder`).** The streaming recorder in `Common/Helpers`:
  - seven CSV streams, with files as an in-memory map from path to lines;
  - the parameter snapshot writer and its reader;
  - the metadata.
- **Parameter field (`ParameterField`).** `isValid`, the error flag, the submit gate and
  the two bounded validators.

Shared pieces are `Wrappers` (`Option`, `compactMap`), `Text` (Swift's `split`,
`replacingOccurrences`, `Int(String)` and decimal printing) and `MavLink` (message ids,
constants and integer types).

The following become parameters:

- Time: a `now` value, a timestamp string, or a tick.
- Swift's `Float(String)` and the printing of `Float`s: `string -> Option<real>` and
  `real -> string`.
- The UTF-8 encoding of parameter ids.
- File-system outcomes: whether a directory could be created, which handles fail to open.
  The recorder keeps the set of session directories that exist; a session directory whose
  creation threw stays remembered but absent, so the later `try?` writes into it do nothing.
- Socket outcomes: whether a datagram was delivered, and what a read returned.

Combine subscriptions, timers and `DispatchQueue` delays become explicit events and
requests: `HomeViewModel.Event`, `HomeViewModel.Request` and `LinkManager.Effect`.

The view model runs one of two builds (`HomeViewModel.Build`, part of its environment):

- `AsWritten` is the code as it stands. The maximum-throttle field accepts any number in
  [-1, 1], and restoring the last session can trap, which stops the app (`Request.Crash`).
- `Corrected` has the findings below fixed. The field accepts only [0, 1]. The snapshot
  reader takes the value after the last comma and skips rows without one.

Every event-level property is proved for both builds, each against its own invariant.

Four behaviours of the code shape the model:

- The link manager's `connect()` has no state guard. Only the view model refuses to
  connect while connecting or connected.
- The link manager sends actions in any state. The connection and arming guards live only
  in the view model.
- Eleven missed ticks while connecting end in NOT_CONNECTED, through `disconnect()`, not
  in FAILED.
- Cleanup after FAILED or NOT_CONNECTED empties only the attitude, motor, target, PID and
  loop-time histories. Throttle, altitude and the status-text log are kept.

## Model

| member | source | states |
|---|---|---|
| RingBuffer.New | CFGroundControl/Features/Home/CircuralBuffer.swift:16-19 | a new buffer is well formed, has the requested capacity and no elements |
| RingBuffer.Append | CFGroundControl/Features/Home/CircuralBuffer.swift:21-27 | append keeps the buffer well formed with the same capacity; count rises by one until it saturates at capacity |
| RingBuffer.PresentOfValid | CFGroundControl/Features/Home/CircuralBuffer.swift:30 | the compacted slots of a well-formed buffer are exactly `count` items, slot order kept, so the negative-index branch never runs |
| RingBuffer.Elements | CFGroundControl/Features/Home/CircuralBuffer.swift:29-38 | `elements` has exactly `count` items |
| RingBuffer.ElementsAt | CFGroundControl/Features/Home/CircuralBuffer.swift:29-38 | the k-th element is the slot k places after the oldest one, modulo capacity |
| RingBuffer.AppendNotFull | CFGroundControl/Features/Home/CircuralBuffer.swift:21-38 | while not full, an append adds the item at the end of `elements` |
| RingBuffer.AppendFull | CFGroundControl/Features/Home/CircuralBuffer.swift:21-38 | when full, an append drops the oldest element and adds the new one at the end |
| RingBuffer.AppendElements | CFGroundControl/Features/Home/CircuralBuffer.swift:21-38 | after one append, `elements` is the last `capacity` items of the old elements followed by the new item |
| RingBuffer.AppendAllHistory | CFGroundControl/Features/Home/CircuralBuffer.swift:21-38 | a buffer holding the last items of a history keeps holding the last items of that history extended by any appended sequence |
| RingBuffer.AppendAllElements | CFGroundControl/Features/Home/CircuralBuffer.swift:16-38 | after appending M items to a new buffer, `elements` is the last min(M, capacity) of them, oldest first |
| RingBuffer.AppendNewest | CFGroundControl/Features/Home/CircuralBuffer.swift:21-38 | after `append(x)` the newest element is x |
| RingBuffer.RemoveAll | CFGroundControl/Features/Home/CircuralBuffer.swift:40-44 | `removeAll` leaves head and count at 0, no elements, and the capacity unchanged |
| RingBuffer.RemoveAllThenAppend | CFGroundControl/Features/Home/CircuralBuffer.swift:40-44 | after `removeAll`, any sequence of appends behaves as on a new buffer |
| LinkManager.Connect | CFGroundControl/Common/Helpers/MAVLinkUDPManager.swift:99-105 | connect always publishes CONNECTING and starts a discovery with a 5000 ms timeout; there is no state guard |
| LinkManager.OnDiscovery | CFGroundControl/Common/Helpers/MAVLinkUDPManager.swift:107-119 | a found drone goes on to the transport; otherwise, above 5 failures FAILED is published and the counter resets, and at or below 5 the counter grows and a retry on the default port is scheduled after 2 s |
| LinkManager.FailedRoundsCount | CFGroundControl/Common/Helpers/MAVLinkUDPManager.swift:108-118 | from a zero counter, n failed rounds leave the counter at n mod 7; the state is FAILED exactly on multiples of 7 |
| LinkManager.SevenFailuresFail | CFGroundControl/Common/Helpers/MAVLinkUDPManager.swift:108-118 | six straight failures leave CONNECTING with counter 6; the seventh ends in FAILED with counter 0 |
| LinkManager.ConnectToDrone | CFGroundControl/Common/Helpers/MAVLinkUDPManager.swift:198-207 | a transport failure publishes FAILED and changes nothing else; success starts the timer and the receiver and leaves the state as it was |
| LinkManager.Disconnect | CFGroundControl/Common/Helpers/MAVLinkUDPManager.swift:176-196 | a no-op in NOT_CONNECTED; from any other state it fully resets (counters, timestamps, list, timer, receiver) and closes the socket |
| LinkManager.DisconnectIdempotent | CFGroundControl/Common/Helpers/MAVLinkUDPManager.swift:176-196 | disconnecting twice gives the state of disconnecting once, and the second call has no effect |
| LinkManager.CheckHealth | CFGroundControl/Common/Helpers/MAVLinkUDPManager.swift:309-327 | CONNECTING counts a missed heartbeat and disconnects above 10; CONNECTED disconnects after more than 10 s of silence; NOT_CONNECTED and FAILED only cancel the timer |
| LinkManager.SendHeartbeat | CFGroundControl/Common/Helpers/MAVLinkUDPManager.swift:329-350 | a heartbeat frame goes out only when the socket accepts it, and only then is `lastHeartbeatSent` updated |
| LinkManager.Tick | CFGroundControl/Common/Helpers/MAVLinkUDPManager.swift:299-307 | a cancelled timer does nothing |
| LinkManager.TickConnecting | CFGroundControl/Common/Helpers/MAVLinkUDPManager.swift:311-315 | a tick while CONNECTING disconnects exactly when the missed count passes 10 |
| LinkManager.TickConnected | CFGroundControl/Common/Helpers/MAVLinkUDPManager.swift:316-322 | a tick while CONNECTED disconnects iff a heartbeat was recorded more than 10 s earlier; otherwise it stays CONNECTED |
| LinkManager.TickIdle | CFGroundControl/Common/Helpers/MAVLinkUDPManager.swift:323-325 | a tick in NOT_CONNECTED or FAILED only cancels the timer |
| LinkManager.SilentTicks | CFGroundControl/Common/Helpers/MAVLinkUDPManager.swift:309-327 | from a freshly opened link, ten silent ticks keep CONNECTING and the eleventh ends in NOT_CONNECTED, not FAILED |
| LinkManager.OnHeartbeat | CFGroundControl/Common/Helpers/MAVLinkUDPManager.swift:377-385 | a heartbeat while CONNECTING publishes CONNECTED and then forwards the packet; in any other state it only forwards it; the state changes only from CONNECTING to CONNECTED; the missed count is zeroed, the time recorded, and nothing else changes |
| LinkManager.OnParamValue | CFGroundControl/Common/Helpers/MAVLinkUDPManager.swift:399-402 | a PARAM_VALUE appends one entry and publishes the whole list |
| LinkManager.Inbound | CFGroundControl/Common/Helpers/MAVLinkUDPManager.swift:375-403 | the delegate forwards attitude, altitude and status text unchanged and never touches the discovery counter or the socket |
| LinkManager.BuildAction | CFGroundControl/Common/Helpers/MAVLinkUDPManager.swift:123-170 | every action's builder succeeds on the manager's 280-byte buffer |
| LinkManager.SendAction | CFGroundControl/Common/Helpers/MAVLinkUDPManager.swift:352-372 | an action's frame is sent iff the socket accepts it, whatever the connection state; a parameter-list request empties the list first |
| LinkManager.RemoveParamList | CFGroundControl/Common/Helpers/MAVLinkUDPManager.swift:172-174 | `removeParamList` empties the list and nothing else |
| LinkManager.ParamStep | CFGroundControl/Common/Helpers/MAVLinkUDPManager.swift:159-174 | a received value is appended; a request or a removal empties the list |
| LinkManager.ParamsFollowList | CFGroundControl/Common/Helpers/MAVLinkUDPManager.swift:159-174 | the list after a run of parameter inputs is fixed by the old list and those inputs alone, whatever else the link state holds |
| LinkManager.ParamHistory | CFGroundControl/Common/Helpers/MAVLinkUDPManager.swift:399-402 | the list is exactly the values received since the last request or removal, in order |
| LinkManager.PublishedIsHistory | CFGroundControl/Common/Helpers/MAVLinkUDPManager.swift:399-402 | the list published after a PARAM_VALUE is the list just built |
| LinkManager.ReceiveStep | CFGroundControl/Common/Helpers/MAVLinkUDPManager.swift:216-234 | one more read extends the parser input by its bytes if positive; a read of 0 or more resets the error run, a negative one extends it |
| LinkManager.ReceiveTracks | CFGroundControl/Common/Helpers/MAVLinkUDPManager.swift:216-234 | one loop iteration keeps the receiver in step with the reads made so far |
| LinkManager.ReceiveLoop | CFGroundControl/Common/Helpers/MAVLinkUDPManager.swift:209-239 | the loop stops exactly at the 101st consecutive failed read; only positive reads reach the parser; its events are the dispatch of the frames in the bytes read so far |
| MavParser.IsArmed | CFGroundControl/Resources/mavlib/src/CF_gcs_parser.c:42 | armed iff bit 128 (MAV_MODE_FLAG_SAFETY_ARMED) of `base_mode` is set |
| MavParser.HandleMessage | CFGroundControl/Resources/mavlib/src/CF_gcs_parser.c:35-116 | per message: an event iff its callback is set (and, for PARAM_VALUE, the type is REAL32); heartbeat fields pass through; attitude angles ×180/π with rates unchanged; position lat/lon ÷1e7 and altitudes ÷1000; status text and parameters unchanged; unknown ids give nothing |
| MavParser.RegisteredDispatch | CFGroundControl/Resources/mavlib/src/CF_gcs_parser.c:35-116 | with every callback registered, a message is dropped iff its id is unknown or it is a non-REAL32 parameter |
| MavParser.ProcessIsDispatchOfFrames | CFGroundControl/Resources/mavlib/src/CF_gcs_parser.c:19-31 | the events of a chunk are its completed frames, in order, each mapped through `handle_message` |
| MavParser.NoFrameNoEvent | CFGroundControl/Resources/mavlib/src/CF_gcs_parser.c:19-31 | a chunk in which no frame completes dispatches nothing |
| MavParser.ProcessSplit | CFGroundControl/Resources/mavlib/src/CF_gcs_parser.c:19-31 | processing two chunks in turn, framer state carried over, equals processing their concatenation |
| MavBuilder.Guarded | CFGroundControl/Resources/mavlib/src/CF_gcs_mav_builder.c:12-15 | a frame comes out iff the buffer is non-null and at least MAVLINK_MAX_PACKET_LEN bytes; it carries the station's system and component ids |
| MavBuilder.BuildHeartbeat | CFGroundControl/Resources/mavlib/src/CF_gcs_mav_builder.c:10-29 | a GCS heartbeat: MAV_TYPE_GCS, MAV_AUTOPILOT_INVALID, custom-mode-enabled base mode, custom mode 0, MAV_STATE_ACTIVE |
| MavBuilder.BuildArmDisarm | CFGroundControl/Resources/mavlib/src/CF_gcs_mav_builder.c:31-56 | COMPONENT_ARM_DISARM with param1 1 to arm and 0 to disarm, params 2-7 zero |
| MavBuilder.BuildCalibrateImu | CFGroundControl/Resources/mavlib/src/CF_gcs_mav_builder.c:58-83 | PREFLIGHT_CALIBRATION with only param1 set to 1 |
| MavBuilder.BuildCalibrateBaro | CFGroundControl/Resources/mavlib/src/CF_gcs_mav_builder.c:85-110 | PREFLIGHT_CALIBRATION with only param5 set to 1 |
| MavBuilder.BuildManualControl | CFGroundControl/Resources/mavlib/src/CF_gcs_mav_builder.c:112-134 | MANUAL_CONTROL to system 1 with roll, pitch, yaw, throttle unchanged in x, y, z, r and every other field 0 |
| MavBuilder.BuildTakeoff | CFGroundControl/Resources/mavlib/src/CF_gcs_mav_builder.c:136-161 | NAV_TAKEOFF with all seven params zero |
| MavBuilder.BuildParamList | CFGroundControl/Resources/mavlib/src/CF_gcs_mav_builder.c:163-179 | PARAM_REQUEST_LIST to system 1, component 1 |
| MavBuilder.CStrLen | CFGroundControl/Resources/mavlib/src/CF_gcs_mav_builder.c:189 | `strlen` counts the bytes before the first NUL |
| MavBuilder.PackParamId | CFGroundControl/Resources/mavlib/src/CF_gcs_mav_builder.c:188-196 | the 16-byte id field holds the id's first min(strlen, 16) bytes and zeros after them |
| MavBuilder.ParamIdRoundTrip | CFGroundControl/Resources/mavlib/src/CF_gcs_mav_builder.c:188-196 | the receiver reads back the id cut at its terminator and at 16 bytes |
| MavBuilder.BuildSetParam | CFGroundControl/Resources/mavlib/src/CF_gcs_mav_builder.c:181-208 | PARAM_SET to system 1, component 1 whose id field is exactly the 16-byte zero-filled `PackParamId(id)` (the first min(strlen, 16) bytes, then zeros), which a receiver reads back as the id cut at its NUL and at 16 bytes; the value and type REAL32 |
| MavBuilder.ManagerBufferFits | CFGroundControl/Common/Helpers/MAVLinkUDPManager.swift:329-353 | the manager's 280-byte buffers always pass the builders' guard |
| MavBuilder.OwnHeartbeatDisarmed | CFGroundControl/Resources/mavlib/src/CF_gcs_mav_builder.c:18-25 | the station's own heartbeat, read by the dispatcher, reports a disarmed GCS vehicle |
| MavBuilder.ArmFlagRecoverable | CFGroundControl/Resources/mavlib/src/CF_gcs_mav_builder.c:39-52 | two arm/disarm frames are equal iff the requested flags are equal |
| Text.Split | CFGroundControl/Features/Home/HomeViewModel.swift:212 | Swift's `split` yields no empty piece and no piece containing the separator |
| Text.SplitJoin | CFGroundControl/Features/Home/HomeViewModel.swift:212 | non-empty, separator-free pieces joined by the separator split back into themselves |
| Text.RemoveOccurrences | CFGroundControl/Features/Home/HomeViewModel.swift:211 | `replacingOccurrences(of:with: "")` never lengthens the text |
| Text.RemoveLeading | CFGroundControl/Features/Home/HomeViewModel.swift:211 | removing a tag from a text that starts with it is removing it from the rest |
| Text.RemoveCharRemovesAll | CFGroundControl/Features/Home/HomeViewModel.swift:296 | removing every space leaves no space |
| Text.RemoveAbsent | CFGroundControl/Features/Home/HomeViewModel.swift:211 | a text without the tag is left unchanged |
| Text.SplitKeepsAllButSeparators | CFGroundControl/Features/Home/HomeViewModel.swift:212 | the pieces of a `split`, concatenated, are the text with every separator removed |
| Text.SplitLines | CFGroundControl/Common/Helpers/StreamingSessionRecorder.swift:155 | a file split on newlines gives back its non-empty, newline-free lines |
| Text.ParseInt | CFGroundControl/Features/Home/HomeViewModel.swift:218 | Swift's `Int(String)` gives only values in the 64-bit range |
| Text.ParseShowInt | CFGroundControl/Features/Home/HomeViewModel.swift:218 | a printed 64-bit integer parses back to itself |
| StatusText.Route | CFGroundControl/Features/Home/HomeViewModel.swift:209-318 | exactly one branch is taken, with the prefixes tried in the order `DBG:`, `TARGET:`, `LOOPTIME:`; anything else is kept verbatim; a `DBG:` text with fewer than three segments yields no record; TARGET yields angles iff three floats parse |
| StatusText.RouteDebugSegments | CFGroundControl/Features/Home/HomeViewModel.swift:209-271 | a `DBG:` text of three segments decodes each record from its own segment only |
| StatusText.DebugRoundTrip | CFGroundControl/Features/Home/HomeViewModel.swift:209-271 | motors, PID angles and throttle printed as a `DBG:` text are decoded back into the same three records |
| StatusText.TargetRoundTrip | CFGroundControl/Features/Home/HomeViewModel.swift:273-292 | angles printed as a `TARGET:` text are decoded back |
| StatusText.RouteLoopTime | CFGroundControl/Features/Home/HomeViewModel.swift:293-306 | a `LOOPTIME:` text has its tag and every space removed before the comma fields are parsed as integers |
| StatusText.LoopTimeRoundTrip | CFGroundControl/Features/Home/HomeViewModel.swift:293-306 | loop times printed as `LOOPTIME: a,b` are decoded back |
| StatusText.TwoSegmentsYieldNothing | CFGroundControl/Features/Home/HomeViewModel.swift:210-214 | `DBG:1,2,3\|0.1,0.2` yields no record |
| StatusText.LoopTimeExample | CFGroundControl/Features/Home/HomeViewModel.swift:293-306 | `LOOPTIME: 120,130` yields average 120 and current 130 |
| ControlShaping.ApplyDeadband | CFGroundControl/Features/Home/HomeViewModel.swift:491-498 | 0 within the deadband; non-zero outside it when the maximum is non-zero; the sign is kept; the magnitude is at most the maximum's for inputs in [-1, 1] |
| ControlShaping.DeadbandEndpoints | CFGroundControl/Features/Home/HomeViewModel.swift:491-498 | ±1 maps to ±maximum |
| ControlShaping.DeadbandOdd | CFGroundControl/Features/Home/HomeViewModel.swift:491-498 | the deadband is odd: the value of -v is minus the value of v |
| ControlShaping.DeadbandMonotone | CFGroundControl/Features/Home/HomeViewModel.swift:491-498 | with a non-negative maximum the deadband is monotone |
| ControlShaping.StickyThrottle | CFGroundControl/Features/Home/HomeViewModel.swift:442-447 | sticky mode: positive input caps the throttle at the maximum and, from a throttle at most the maximum, never lowers it; other input floors it at 0 and, from a non-negative throttle, never raises it |
| ControlShaping.DirectThrottle | CFGroundControl/Features/Home/HomeViewModel.swift:448-450 | direct mode ignores negative input and otherwise takes the shaped value |
| ControlShaping.RightStickInRange | CFGroundControl/Features/Home/HomeViewModel.swift:437-451 | with a maximum in [0, 1], one right-stick event keeps the throttle in [0, maximum] |
| ControlShaping.RightStickStaysInStickRange | CFGroundControl/Features/Home/HomeViewModel.swift:437-451 | with any maximum in [-1, 1], as the field as written accepts, one in-range stick event keeps a throttle in [-1, 1] within [-1, 1] |
| ControlShaping.StickDownNeverRaises | CFGroundControl/Features/Home/HomeViewModel.swift:437-451 | with a non-negative maximum, pulling the stick down never raises the throttle |
| ControlShaping.ThrottleTraceInRange | CFGroundControl/Features/Home/HomeViewModel.swift:437-451 | with a maximum in [0, 1] and a starting throttle in [0, maximum], any sequence of in-range stick events keeps the throttle in [0, maximum] |
| ControlShaping.ToInt16 | CFGroundControl/Features/Home/HomeViewModel.swift:417-420 | `Int16(x)` rounds toward zero and traps exactly outside (-32769, 32768) |
| ControlShaping.AxisValueFits | CFGroundControl/Features/Home/HomeViewModel.swift:417-420 | a stick value in [-1, 1] times 1000 converts without trapping, into [-1000, 1000] |
| ControlShaping.UpdateMaxManualThrottleAsWritten | CFGroundControl/Features/Home/HomeViewModel.swift:383-389 | as written, any parsed value in [-1, 1] is accepted, negative ones included; otherwise the text reverts to the current maximum |
| ControlShaping.UpdateMaxManualThrottle | CFGroundControl/Features/Home/HomeViewModel.swift:383-389 | corrected: a value is accepted iff it parses and lies in [0, 1]; otherwise the text reverts |
| ControlShaping.UpdateKeepsMaxInRange | CFGroundControl/Features/Home/HomeViewModel.swift:383-389 | the corrected field keeps the maximum in [0, 1] |
| ControlShaping.UpdateAsWrittenKeepsMaxAccepted | CFGroundControl/Features/Home/HomeViewModel.swift:383-389 | the field as written keeps the maximum in [-1, 1] |
| ControlShaping.UpdateAgreesOnNonNegative | CFGroundControl/Features/Home/HomeViewModel.swift:383-389 | both versions agree on every non-negative entry |
| ControlShaping.NegativeMaxPullDownFullThrottle | CFGroundControl/Features/Home/HomeViewModel.swift:383-389 | as written, `-1` is accepted, and pulling the stick fully down in direct mode then commands full throttle (axis 1000) |
| ControlShaping.NegativeMaxStickyNegativeThrottle | CFGroundControl/Features/Home/HomeViewModel.swift:383-389 | as written, in sticky mode the same maximum drives the throttle to -1 |
| HomeViewModel.Record | CFGroundControl/Features/Home/HomeViewModel.swift:159-165 | a sample reaches the recorder iff a session is being recorded; the telemetry is untouched |
| HomeViewModel.AddView | CFGroundControl/Features/Home/HomeViewModel.swift:146-186 | an attitude or altitude packet (or any one record) is appended to its own history only, which keeps its last 25 items |
| HomeViewModel.AddRecords | CFGroundControl/Features/Home/HomeViewModel.swift:146-186 | a record is written to the recorder iff recording; nothing but the telemetry and the recorder changes |
| HomeViewModel.AddAllEffect | CFGroundControl/Features/Home/HomeViewModel.swift:216-271 | records handled in order update each history as the push of the records, and forward all their samples, in order, iff recording |
| HomeViewModel.WriteSamplesAreWriteAll | CFGroundControl/Features/Home/HomeViewModel.swift:231-269 | the writes the sink forwards are the recorder's `write*` calls made one after the other with one timestamp |
| HomeViewModel.PushAllRouted | CFGroundControl/Features/Home/HomeViewModel.swift:209-315 | the records a routed text yields extend exactly the motor, PID and throttle histories (DBG), the target history (TARGET) or the loop-time history (LOOPTIME) |
| HomeViewModel.StatusTextEffect | CFGroundControl/Features/Home/HomeViewModel.swift:204-318 | a status text updates exactly the histories its route names (plain text goes to the 50-entry text log), forwards its records to the recorder iff recording, and changes nothing else |
| HomeViewModel.CleanupEffect | CFGroundControl/Features/Home/HomeViewModel.swift:542-555 | cleanup empties the attitude, motor, target, PID and loop-time histories, keeps throttle, altitude and status text, centres the sticks, stops manual control and clears the link flag |
| HomeViewModel.OnConnectionState | CFGroundControl/Features/Home/HomeViewModel.swift:106-125 | CONNECTING marks connecting; CONNECTED marks connected and schedules a parameter fetch after 1 s; FAILED and NOT_CONNECTED clear both flags |
| HomeViewModel.ConnectionStateEffect | CFGroundControl/Features/Home/HomeViewModel.swift:106-125 | FAILED and NOT_CONNECTED are a cleanup plus the status text; CONNECTING and CONNECTED touch no history, stick, recorder or manual-control flag |
| HomeViewModel.OnHeartbeat | CFGroundControl/Features/Home/HomeViewModel.swift:133-139 | a heartbeat sets the armed flag and centres the sticks iff the flag changes |
| HomeViewModel.OnParamList | CFGroundControl/Features/Home/HomeViewModel.swift:192-197 | a published list ends loading and replaces the parameters |
| HomeViewModel.RecordOrStopSession | CFGroundControl/Features/Home/HomeViewModel.swift:329-331 | recording starts only when armed and connected, and saves only while recording; a start opens the recorder's streams and a save snapshots the current parameters |
| HomeViewModel.UpdateParametersFromLastSession | CFGroundControl/Features/Home/HomeViewModel.swift:391-403 | the snapshot is read by the build's reader; where that traps, the only outcome is the crash; an empty snapshot sends nothing; otherwise the list is cleared, every parameter is sent in order, and a fetch is scheduled 2.5 s later |
| HomeViewModel.LastSessionTrapsAsWritten | CFGroundControl/Features/Home/HomeViewModel.swift:391-392 | as written, restoring traps exactly when some line of the snapshot has fewer than two comma-separated fields |
| HomeViewModel.LastSessionNeverTrapsCorrected | CFGroundControl/Features/Home/HomeViewModel.swift:391-403 | in the corrected build, restoring never traps |
| HomeViewModel.RestoreSendsSnapshot | CFGroundControl/Features/Home/HomeViewModel.swift:391-403 | restoring a snapshot the recorder wrote clears the list, sends exactly the saved parameters in ascending id order, then schedules a fetch; as written this needs non-empty, comma-free ids, while the corrected build handles any id without a newline |
| HomeViewModel.RestoreTrapsOnEmptyId | CFGroundControl/Features/Home/HomeViewModel.swift:391-392 | as written, restoring a snapshot the recorder wrote with an empty parameter id traps |
| HomeViewModel.UpdateMaxManualThrottle | CFGroundControl/Features/Home/HomeViewModel.swift:383-389 | a parsed number becomes the maximum exactly when it lies in [-1, 1] as written, negative ones included (in [0, 1] when corrected); anything else puts the current maximum back in the field; nothing else changes; so the maximum stays in [-1, 1] as written, and in [0, 1] when corrected |
| HomeViewModel.GatedCommands | CFGroundControl/Features/Home/HomeViewModel.swift:323-528 | connect needs neither connecting nor connected; arm and disarm need a connection; calibrations need connected and disarmed; takeoff needs connected and armed; a fetch needs connected and not loading; a command sends its one request exactly when its guard holds and changes nothing otherwise |
| HomeViewModel.CommandManualControl | CFGroundControl/Features/Home/HomeViewModel.swift:333-347 | among the commands, only button B or arm-or-disarm while disarmed, when connected, starts the manual-control timer; only button A or arm-or-disarm while armed, when connected, stops it |
| HomeViewModel.ManualControlSwitch | CFGroundControl/Features/Home/HomeViewModel.swift:333-347 | over every event, manual control starts only on a connected arm, and stops only on a connected disarm or when the link drops to FAILED or NOT_CONNECTED |
| HomeViewModel.ManualTick | CFGroundControl/Features/Home/HomeViewModel.swift:413-422 | a tick sends nothing while disarmed; armed, it sends one MANUAL_CONTROL whose axes are the four inputs times 1000 truncated to `Int16`, and traps exactly when one of those is out of range |
| HomeViewModel.ThrottleStaysInUnit | CFGroundControl/Features/Home/HomeViewModel.swift:437-451 | with a maximum in [0, 1], as the corrected field accepts, a right-stick event keeps the throttle input in [0, 1], even above a lowered maximum |
| HomeViewModel.ControlKeepsInv | CFGroundControl/Features/Home/HomeViewModel.swift:383-451 | thumbstick and maximum-throttle events keep roll, pitch and throttle in [-1, 1] and yaw at 0; as written they keep the maximum in [-1, 1], and when corrected they keep it in [0, 1] with a non-negative throttle |
| HomeViewModel.HandleKeepsInv | CFGroundControl/Features/Home/HomeViewModel.swift:100-555 | every event keeps the build's invariant |
| HomeViewModel.ReachableInv | CFGroundControl/Features/Home/HomeViewModel.swift:100-555 | from launch, any run of events with in-range thumbstick input keeps the invariant of the build that runs |
| HomeViewModel.RunEndsAtCrash | CFGroundControl/Features/Home/HomeViewModel.swift:100-555 | a run requests nothing after a trap, and the corrected build never traps |
| HomeViewModel.HandleCrash | CFGroundControl/Features/Home/HomeViewModel.swift:391-403 | an event traps only as a last-session restore in the build as written, and then requests nothing else |
| HomeViewModel.ManualTickNeverTraps | CFGroundControl/Features/Home/HomeViewModel.swift:413-422 | under either build's invariant, an armed tick never traps in `Int16`: the axes lie in [-1000, 1000] and yaw is 0; when corrected, throttle is at least 0 |
| SessionRecorder.SessionName | CFGroundControl/Common/Helpers/StreamingSessionRecorder.swift:30-32 | the session name is `session_` and the fixed-width `yyyy-MM-dd_HH-mm-ss` stamp, 27 characters |
| SessionRecorder.SessionNameInjective | CFGroundControl/Common/Helpers/StreamingSessionRecorder.swift:30-35 | two starts share a directory iff they fall in the same second |
| SessionRecorder.CsvFileInjective | CFGroundControl/Common/Helpers/StreamingSessionRecorder.swift:37-43 | the seven streams have distinct file names |
| SessionRecorder.CreateCsvFile | CFGroundControl/Common/Helpers/StreamingSessionRecorder.swift:46-57 | without a session directory, or when the handle fails to open, the handles are unchanged; otherwise the stream's handle is its file in the session directory |
| SessionRecorder.CreateCsvFilesHandles | CFGroundControl/Common/Helpers/StreamingSessionRecorder.swift:37-57 | a listed stream whose handle opens gets a handle on its new file; any other stream keeps its handle |
| SessionRecorder.CreateCsvFilesContent | CFGroundControl/Common/Helpers/StreamingSessionRecorder.swift:37-57 | each created file holds exactly its header line, or nothing when its handle failed |
| SessionRecorder.StartRecording | CFGroundControl/Common/Helpers/StreamingSessionRecorder.swift:25-44 | no documents directory changes nothing; a failed sessions directory throws before any change; the session directory is remembered before its own creation can throw, and is added to the existing directories exactly when that creation succeeds |
| SessionRecorder.StartOpensStreams | CFGroundControl/Common/Helpers/StreamingSessionRecorder.swift:25-57 | a successful start opens every stream whose handle opens, on its file, holding exactly its header |
| SessionRecorder.Write | CFGroundControl/Common/Helpers/StreamingSessionRecorder.swift:59-132 | a `write*` call appends one row to its own stream when that stream is open and is a no-op otherwise |
| SessionRecorder.AppendLineOtherFiles | CFGroundControl/Common/Helpers/StreamingSessionRecorder.swift:59-132 | a write touches no other file |
| SessionRecorder.WriteAllAppends | CFGroundControl/Common/Helpers/StreamingSessionRecorder.swift:59-132 | an open stream gains exactly the rows of its own samples, in order, whatever else is written |
| SessionRecorder.WriteAllClosed | CFGroundControl/Common/Helpers/StreamingSessionRecorder.swift:59-132 | a stream without a handle is never written |
| SessionRecorder.RecordedLines | CFGroundControl/Common/Helpers/StreamingSessionRecorder.swift:25-142 | N samples of an opened stream between start and stop leave N + 1 lines in its file |
| SessionRecorder.SortById | CFGroundControl/Common/Helpers/StreamingSessionRecorder.swift:188 | sorting gives a permutation of the parameters in ascending id order |
| SessionRecorder.Quote | CFGroundControl/Common/Helpers/StreamingSessionRecorder.swift:191 | the written id contains a comma iff the id does |
| SessionRecorder.UnquoteQuote | CFGroundControl/Common/Helpers/StreamingSessionRecorder.swift:191 | stripping the quotes from a written id gives the id back |
| SessionRecorder.LastValuesKeys | CFGroundControl/Common/Helpers/StreamingSessionRecorder.swift:205-208 | the metadata map has a key exactly for each id among the parameters |
| SessionRecorder.ReadRow | CFGroundControl/Common/Helpers/StreamingSessionRecorder.swift:155-161 | the corrected reader reads a written row back as its parameter |
| SessionRecorder.InsertSorted | CFGroundControl/Common/Helpers/StreamingSessionRecorder.swift:188 | inserting into an id-sorted list keeps it sorted |
| SessionRecorder.SnapshotLines | CFGroundControl/Common/Helpers/StreamingSessionRecorder.swift:182-196 | the snapshot is the header `parameter_name,value` followed by one row per parameter, each holding a comma |
| SessionRecorder.LastValuesLast | CFGroundControl/Common/Helpers/StreamingSessionRecorder.swift:203-208 | in the metadata map each id holds the value of its last occurrence |
| SessionRecorder.LastValuesSize | CFGroundControl/Common/Helpers/StreamingSessionRecorder.swift:205-208 | the map has one key per parameter exactly when the ids are distinct, so duplicates shrink it below `total_parameters` |
| SessionRecorder.StopRecording | CFGroundControl/Common/Helpers/StreamingSessionRecorder.swift:134-214 | a stop forgets every handle; without a session directory, or when the remembered directory was never created (the `try?` writes fail silently), nothing else changes; with an existing one it writes the snapshot, touches no other file, and records the parameter count, the last value per id and the end stamp in the metadata |
| SessionRecorder.FailedStartStopWritesNothing | CFGroundControl/Common/Helpers/StreamingSessionRecorder.swift:34-35 | a start whose session directory creation throws still remembers the directory, and the stop after it leaves every file and the metadata unchanged |
| SessionRecorder.WriteAfterStop | CFGroundControl/Common/Helpers/StreamingSessionRecorder.swift:134-142 | after a stop every `write*` is a no-op |
| SessionRecorder.StopAgainEmptiesSnapshot | CFGroundControl/Common/Helpers/StreamingSessionRecorder.swift:134-142 | a second stop with no parameters, as deinitialisation does, leaves a header-only snapshot |
| SessionRecorder.ReadLinesAsWrittenTraps | CFGroundControl/Common/Helpers/StreamingSessionRecorder.swift:155-161 | the reader as written fails exactly when one line has fewer than two comma fields |
| SessionRecorder.HeaderSkippedAsWritten | CFGroundControl/Common/Helpers/StreamingSessionRecorder.swift:155-161 | the reader as written skips the header, since `value` is not a float |
| SessionRecorder.AsWrittenReadsPlainRows | CFGroundControl/Common/Helpers/StreamingSessionRecorder.swift:155-161 | as written, rows with non-empty comma-free ids are read back as written |
| SessionRecorder.EmptyIdTraps | CFGroundControl/Common/Helpers/StreamingSessionRecorder.swift:155-161 | as written, a snapshot holding a parameter with an empty id makes the reader trap |
| SessionRecorder.CommaIdMisread | CFGroundControl/Common/Helpers/StreamingSessionRecorder.swift:155-161 | as written, the id `x,y,z` is read back as `"x` with the value of `y`; the written value is lost |
| SessionRecorder.ReadLine | CFGroundControl/Common/Helpers/StreamingSessionRecorder.swift:155-161 | corrected reader: a line without a comma is never read as a parameter |
| SessionRecorder.SnapshotFileLines | CFGroundControl/Common/Helpers/StreamingSessionRecorder.swift:182-196 | the written snapshot splits back into its header and its rows |
| SessionRecorder.SnapshotRoundTrip | CFGroundControl/Common/Helpers/StreamingSessionRecorder.swift:144-196 | the corrected reader returns the written parameters sorted by id, empty and comma-containing ids included |
| SessionRecorder.SnapshotRoundTripAsWritten | CFGroundControl/Common/Helpers/StreamingSessionRecorder.swift:144-196 | the reader as written returns the written parameters sorted by id when every id is non-empty and comma-free |
| SessionRecorder.CommaIdReadBack | CFGroundControl/Common/Helpers/StreamingSessionRecorder.swift:155-161 | the corrected reader returns a comma-containing id unchanged |
| ParameterField.FloatAccepts | CFGroundControl/Common/Views/ParameterFieldView.swift:107-114 | the float validator accepts iff the text parses and the value is at least the minimum and at most the maximum, each when given |
| ParameterField.IntAccepts | CFGroundControl/Common/Views/ParameterFieldView.swift:116-123 | the integer validator accepts iff `Int` parses the text and the value is within the given bounds |
| ParameterField.UnboundedAcceptsParseable | CFGroundControl/Common/Views/ParameterFieldView.swift:107-123 | with no bounds, a validator accepts exactly the parseable strings |
| ParameterField.WideningKeepsAccepted | CFGroundControl/Common/Views/ParameterFieldView.swift:107-114 | widening the float bounds never rejects an accepted string |
| ParameterField.IntWideningKeepsAccepted | CFGroundControl/Common/Views/ParameterFieldView.swift:116-123 | widening the integer bounds never rejects an accepted string |
| ParameterField.IntAcceptsShown | CFGroundControl/Common/Views/ParameterFieldView.swift:116-123 | a printed integer is accepted iff it fits 64 bits and lies within the bounds |
| ParameterField.IsValid | CFGroundControl/Common/Views/ParameterFieldView.swift:24-27 | valid when there is no validator or the value is empty; otherwise the validator decides |
| ParameterField.OnValueChange | CFGroundControl/Common/Views/ParameterFieldView.swift:64-69 | an edit replaces the text, sets the error flag to not-valid and hands the text to `onChange` |
| ParameterField.HandleSubmit | CFGroundControl/Common/Views/ParameterFieldView.swift:100-104 | a submit goes to `onSubmit` and drops focus iff the value is valid; otherwise nothing changes |
| ParameterField.SubmitMatchesErrorFlag | CFGroundControl/Common/Views/ParameterFieldView.swift:64-104 | after any edit, a submit goes through exactly when no error is shown |
| ParameterField.SubmittedFloatInBounds | CFGroundControl/Common/Views/ParameterFieldView.swift:100-114 | a field with a bounded float validator submits only non-empty text that parses into the bounds |

## Left out

- Sockets (`CF_gcs_udp.c`): the socket calls are left out. Only their results are modelled: delivered or not, and the read return convention (> 0 bytes, 0 for nothing or a foreign sender, -1 for an error).
- MAVLink framing, CRC and packing (`mavlink_parse_char`, `mavlink_msg_*_pack`, `mavlink_msg_to_send_buffer`): that library is not part of this model. The framer is a parameter, and builders return abstract frames instead of bytes.
- `MAVLINK_MAX_PACKET_LEN` is taken as 280 bytes, the MAVLink 2 maximum. The header defining it is not part of this model.
- Timers, Combine, `Task`, `DispatchQueue` delays and `[weak self]`: replaced by explicit events, ticks and requests. Requests such as "fetch parameters after 1 s" are returned, not executed.
- Floating point: every `Float` and `Double` is a `real`. `Float(String)` and `Float` printing are parameters, so NaN, infinities and rounding are not modelled. This includes NaN passing both bound tests of `floatValidator`.
- The radians-to-degrees conversion uses a fixed rational approximation of π, and the position divisions are exact.
- Dates: the ISO 8601 timestamps are an opaque string, and the clock is a calendar value.
- Swift `String` comparison: modelled as lexicographic order on characters, without Unicode collation or normalisation.
- UTF-8: `encode` is a parameter that turns a parameter id into the bytes `CF_gcs_build_set_param` receives.
- The JSON serialisation of the metadata is left out. Only the two values it records are kept.
- `isSessionEmpty` and the choice of the latest session directory (`sortedBySessionTimestamp`, not part of this model) are left out. The reader takes the snapshot text, or nothing.
- The older recorder in `Features/Home` is not part of this model.
- SwiftUI state that only drives drawing is left out: colours, `isEditing`, `parametersRefreshTrigger`, `isStickConnected`, `currentController`.
- Controller discovery notifications are left out. A connected or disconnected controller is an event that centres the sticks.
- HomeViewModel.RestoreSendsSnapshot: stated for any text that splits into the lines the writer produces (`SessionRecorder.SnapshotFileLines`), rather than for the written file, because a file ends with a newline that `split` drops.
- HomeViewModel.ManualTick: the `Int16` conversion is modelled on the `real` product of the input and 1000, not on the `Float` product.
- SessionRecorder.Write: the `control_loop_time` rows carry three fields while its header names five. No header/row arity is stated for that stream.
- HomeViewModel.WriteSamplesAreWriteAll: the records of one event are written with one `env.stamp`, whereas each `write*` call takes its own `Date()`, because the clock is a parameter fixed for the event.
- MavParser.Message: status text and parameter ids arrive as finished strings. The manager builds them with `String(cString:)` from the `char[50]` text and `char[16]` id fields, which carry no NUL when full; for a 50-character text or a 16-character id that decode reads past the field, and this read is not modelled.
- LinkManager.ReceiveLoop: cancelling the receiving `Task` and the `isReceiving` flag are modelled by where the sequence of reads ends. The 1 ms sleep is left out.

## Findings

| source | as written | input that shows it | evidently intended | confidence | as-written member | corrected member |
|---|---|---|---|---|---|---|
| CFGroundControl/Features/Home/HomeViewModel.swift:383-389 | `abs(value) >= 0.0 && abs(value) <= 1.0` accepts any value in [-1, 1]; the first test holds for every non-NaN value | typing `-1`, then pulling the right stick fully down in direct mode, commands throttle +1000; in sticky mode the throttle goes to -1 | a maximum throttle in [0, 1] | not executed | ControlShaping.NegativeMaxPullDownFullThrottle | ControlShaping.UpdateMaxManualThrottle |
| CFGroundControl/Common/Helpers/StreamingSessionRecorder.swift:155-161 | each line is split on `,`, which drops empty pieces, and `value[1]` is indexed without a count check | a parameter with an empty id is written as `,0.5`; splitting it yields the single field `0.5`, so `value[1]` is out of range and the app traps | read the value after the last comma, skipping lines without one | not executed | SessionRecorder.EmptyIdTraps | SessionRecorder.SnapshotRoundTrip |
| CFGroundControl/Common/Helpers/StreamingSessionRecorder.swift:158-160 | the writer quotes an id containing commas, but the reader splits on every comma and ignores the quotes | the id `x,y,z` with value v is read back as the id `"x` with the value of `y` | the id and value as written | not executed | SessionRecorder.CommaIdMisread | SessionRecorder.CommaIdReadBack |
