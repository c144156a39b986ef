/**
 * Outbound command builders. Each builder refuses (the C code returns length 0) when the
 * buffer is missing or smaller than MAVLINK_MAX_PACKET_LEN; otherwise it yields the message
 * it packs. Byte layout, sequence numbers and CRC belong to the MAVLink library and are not
 * modelled: a built frame is the sender ids plus the typed payload.
 */
module MavBuilder {
  import opened Wrappers
  import opened MavLink
  import MavParser

  /** The caller's output buffer: a null pointer or `size` bytes. */
  datatype Buffer = NullBuffer | Buffer(size: nat)

  datatype Payload =
    | HeartbeatOut(mavType: uint8, autopilot: uint8, baseMode: uint8, customMode: uint32, systemStatus: uint8)
      /** COMMAND_LONG with `params[0..7]` standing for param1..param7. */
    | CommandLong(targetSystem: uint8, targetComponent: uint8, command: nat, confirmation: nat, params: seq<real>)
      /** MANUAL_CONTROL; `extensions` are the eleven fields after `r` (buttons .. aux6). */
    | ManualControl(target: uint8, x: int16, y: int16, z: int16, r: int16, extensions: seq<int>)
    | ParamRequestList(targetSystem: uint8, targetComponent: uint8)
    | ParamSet(targetSystem: uint8, targetComponent: uint8, paramId: seq<uint8>, paramValue: real, paramType: uint8)

  datatype Frame = Frame(systemId: uint8, componentId: uint8, payload: Payload)

  function PayloadMsgId(p: Payload): nat {
    match p
    case HeartbeatOut(_, _, _, _, _) => MsgIdHeartbeat
    case CommandLong(_, _, _, _, _) => MsgIdCommandLong
    case ManualControl(_, _, _, _, _, _) => MsgIdManualControl
    case ParamRequestList(_, _) => MsgIdParamRequestList
    case ParamSet(_, _, _, _, _) => MsgIdParamSet
  }

  /** The guard every builder starts with. */
  predicate Fits(buffer: Buffer) {
    buffer.Buffer? && buffer.size >= MaxPacketLen
  }

  /** A frame sent by this ground station (system 255, component 25). */
  function FromGcs(p: Payload): Frame {
    Frame(GcsSystemId, GcsCompId, p)
  }

  function Guarded(buffer: Buffer, p: Payload): (r: Option<Frame>)
    ensures r.Some? <==> Fits(buffer)
    ensures r.Some? ==> r.value.systemId == GcsSystemId && r.value.componentId == GcsCompId
    ensures r.Some? ==> r.value.payload == p
  {
    if !Fits(buffer) then None else Some(FromGcs(p))
  }

  /** COMMAND_LONG to the vehicle's autopilot with confirmation 0. */
  function Command(command: nat, params: seq<real>): Payload {
    CommandLong(TargetSystemId, TargetCompId, command, 0, params)
  }

  /** `CF_gcs_build_heartbeat`: a ground-station heartbeat with custom mode 0, state ACTIVE. */
  function BuildHeartbeat(buffer: Buffer): (r: Option<Frame>)
    ensures r.Some? <==> Fits(buffer)
    ensures r.Some? ==> r.value.systemId == GcsSystemId && PayloadMsgId(r.value.payload) == MsgIdHeartbeat
    ensures r.Some? ==> r.value.payload == HeartbeatOut(MavTypeGcs, MavAutopilotInvalid,
                                                        MavModeFlagCustomModeEnabled, 0, MavStateActive)
  {
    Guarded(buffer, HeartbeatOut(MavTypeGcs, MavAutopilotInvalid, MavModeFlagCustomModeEnabled, 0, MavStateActive))
  }

  /** `CF_gcs_build_arm_disarm`: param1 is 1 to arm and 0 to disarm; params 2-7 are 0. */
  function BuildArmDisarm(buffer: Buffer, arm: bool): (r: Option<Frame>)
    ensures r.Some? <==> Fits(buffer)
    ensures r.Some? ==>
      var p := r.value.payload;
      && p.CommandLong? && p.command == MavCmdComponentArmDisarm
      && p.targetSystem == TargetSystemId && p.targetComponent == TargetCompId
      && |p.params| == 7 && (p.params[0] == 1.0 <==> arm)
      && (forall i :: 1 <= i < 7 ==> p.params[i] == 0.0)
  {
    Guarded(buffer, Command(MavCmdComponentArmDisarm, [if arm then 1.0 else 0.0, 0.0, 0.0, 0.0, 0.0, 0.0, 0.0]))
  }

  // MAV_CMD_PREFLIGHT_CALIBRATION parameter meanings (MAVLink common message set).
  predicate RequestsGyro(p: Payload) { p.CommandLong? && |p.params| == 7 && p.params[0] == 1.0 }
  predicate RequestsGroundPressure(p: Payload) { p.CommandLong? && |p.params| == 7 && p.params[2] == 1.0 }
  predicate RequestsAccelerometer(p: Payload) { p.CommandLong? && |p.params| == 7 && p.params[4] == 1.0 }

  /** Exactly one of the seven calibration parameters is 1, the others 0. */
  predicate OnlyParam(p: Payload, k: nat) {
    p.CommandLong? && |p.params| == 7 && forall i :: 0 <= i < 7 ==> p.params[i] == (if i == k then 1.0 else 0.0)
  }

  /** `CF_gcs_build_calibrate_imu`: PREFLIGHT_CALIBRATION with only param1 (gyroscope) set. */
  function BuildCalibrateImu(buffer: Buffer): (r: Option<Frame>)
    ensures r.Some? <==> Fits(buffer)
    ensures r.Some? ==>
      && r.value.payload.CommandLong? && r.value.payload.command == MavCmdPreflightCalibration
      && OnlyParam(r.value.payload, 0) && RequestsGyro(r.value.payload)
  {
    Guarded(buffer, Command(MavCmdPreflightCalibration, [1.0, 0.0, 0.0, 0.0, 0.0, 0.0, 0.0]))
  }

  /**
   * `CF_gcs_build_calibrate_baro`: PREFLIGHT_CALIBRATION with only param5 set. MAVLink defines
   * param5 as accelerometer calibration and param3 as ground pressure, so the command this
   * builder sends does not ask for a barometer calibration.
   */
  function BuildCalibrateBaro(buffer: Buffer): (r: Option<Frame>)
    ensures r.Some? <==> Fits(buffer)
    ensures r.Some? ==>
      && r.value.payload.CommandLong? && r.value.payload.command == MavCmdPreflightCalibration
      && OnlyParam(r.value.payload, 4)
      && RequestsAccelerometer(r.value.payload) && !RequestsGroundPressure(r.value.payload)
  {
    Guarded(buffer, Command(MavCmdPreflightCalibration, [0.0, 0.0, 0.0, 0.0, 1.0, 0.0, 0.0]))
  }

  /** `CF_gcs_build_takeoff`: NAV_TAKEOFF with all seven parameters 0. */
  function BuildTakeoff(buffer: Buffer): (r: Option<Frame>)
    ensures r.Some? <==> Fits(buffer)
    ensures r.Some? ==>
      && r.value.payload.CommandLong? && r.value.payload.command == MavCmdNavTakeoff
      && |r.value.payload.params| == 7 && forall i :: 0 <= i < 7 ==> r.value.payload.params[i] == 0.0
  {
    Guarded(buffer, Command(MavCmdNavTakeoff, [0.0, 0.0, 0.0, 0.0, 0.0, 0.0, 0.0]))
  }

  /** `CF_gcs_build_manual_control`: the four axes go to x, y, z, r for system 1; the rest are 0. */
  function BuildManualControl(buffer: Buffer, roll: int16, pitch: int16, yaw: int16, throttle: int16): (r: Option<Frame>)
    ensures r.Some? <==> Fits(buffer)
    ensures r.Some? ==>
      var p := r.value.payload;
      && p.ManualControl? && p.target == TargetSystemId
      && p.x == roll && p.y == pitch && p.z == yaw && p.r == throttle
      && |p.extensions| == 11 && forall i :: 0 <= i < 11 ==> p.extensions[i] == 0
  {
    Guarded(buffer, ManualControl(TargetSystemId, roll, pitch, yaw, throttle, seq(11, _ => 0)))
  }

  /** `CF_gcs_build_param_list`: PARAM_REQUEST_LIST to system 1, component 1. */
  function BuildParamList(buffer: Buffer): (r: Option<Frame>)
    ensures r.Some? <==> Fits(buffer)
    ensures r.Some? ==> r.value.payload == ParamRequestList(TargetSystemId, TargetCompId)
  {
    Guarded(buffer, ParamRequestList(TargetSystemId, TargetCompId))
  }

  // ---------------------------------------------------------- parameter ids

  /** `strlen`: the bytes before the first NUL (all of them when there is none). */
  function CStrLen(s: seq<uint8>): (n: nat)
    ensures n <= |s|
    ensures forall i :: 0 <= i < n ==> s[i] != 0
    ensures n < |s| ==> s[n] == 0
  {
    if s == [] || s[0] == 0 then 0 else 1 + CStrLen(s[1..])
  }

  function Min(a: int, b: int): int { if a <= b then a else b }

  /**
   * The 16-byte `param_id` field: zero-filled, then the first 16 bytes of the id when it is at
   * least 16 long (no terminator fits), otherwise the whole id followed by zeros.
   */
  function PackParamId(id: seq<uint8>): (field: seq<uint8>)
    ensures |field| == 16
    ensures forall i :: 0 <= i < 16 ==> field[i] == if i < Min(CStrLen(id), 16) then id[i] else 0
  {
    var len := CStrLen(id);
    if len >= 16 then id[..16] else id[..len] + seq(16 - len, _ => 0)
  }

  /** How a receiver reads a `char[16]` id: up to the first NUL or all 16 bytes. */
  function UnpackParamId(field: seq<uint8>): seq<uint8> {
    field[..CStrLen(field)]
  }

  /** The receiver reads back the id cut at its terminator and at 16 bytes. */
  lemma ParamIdRoundTrip(id: seq<uint8>)
    ensures UnpackParamId(PackParamId(id)) == id[..Min(CStrLen(id), 16)]
  {
    var field := PackParamId(id);
    var n := Min(CStrLen(id), 16);
    assert CStrLen(field) == n by {
      if n < 16 {
        assert field[n] == 0;
      }
    }
  }

  /** `CF_gcs_build_set_param`: PARAM_SET with the packed id, the value and type REAL32. */
  function BuildSetParam(buffer: Buffer, id: seq<uint8>, value: real): (r: Option<Frame>)
    ensures r.Some? <==> Fits(buffer)
    ensures r.Some? ==>
      var p := r.value.payload;
      && p.ParamSet? && p.targetSystem == TargetSystemId && p.targetComponent == TargetCompId
      && p.paramId == PackParamId(id)
      && |p.paramId| == 16
      && UnpackParamId(p.paramId) == id[..Min(CStrLen(id), 16)]
      && p.paramValue == value && p.paramType == MavParamTypeReal32
  {
    ParamIdRoundTrip(id);
    Guarded(buffer, ParamSet(TargetSystemId, TargetCompId, PackParamId(id), value, MavParamTypeReal32))
  }

  /** The 280-byte buffers the link manager passes always satisfy the guard. */
  lemma ManagerBufferFits()
    ensures Fits(Buffer(280))
  {
  }

  /** How the receiving side decodes an outbound heartbeat. */
  function HeartbeatAsMessage(p: Payload): MavParser.Message
    requires p.HeartbeatOut?
  {
    MavParser.Heartbeat(p.mavType, p.autopilot, p.baseMode, p.customMode, p.systemStatus)
  }

  /**
   * The station's own heartbeat, read by the same dispatcher, reports a disarmed
   * ground-control vehicle: custom-mode-enabled does not touch the armed bit.
   */
  lemma OwnHeartbeatDisarmed(buffer: Buffer)
    requires Fits(buffer)
    ensures
      var e := MavParser.HandleMessage(MavParser.AllCallbacks, HeartbeatAsMessage(BuildHeartbeat(buffer).value.payload));
      e.Some? && e.value.HeartbeatEvent? && !e.value.isArmed && e.value.vehicleType == MavTypeGcs
  {
  }

  /** The arm request is recoverable from param1 alone. */
  lemma ArmFlagRecoverable(buffer: Buffer, a: bool, b: bool)
    requires Fits(buffer)
    ensures BuildArmDisarm(buffer, a) == BuildArmDisarm(buffer, b) <==> a == b
  {
    if BuildArmDisarm(buffer, a) == BuildArmDisarm(buffer, b) {
      assert BuildArmDisarm(buffer, a).value.payload.params[0] == BuildArmDisarm(buffer, b).value.payload.params[0];
    }
  }
}
