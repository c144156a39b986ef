/**
 * Inbound dispatch: every completed MAVLink frame is turned into at most one callback event.
 * The byte framer (`mavlink_parse_char`) is a parameter: a step function from its state and
 * one byte to its next state and possibly a completed, decoded message. Its state persists
 * between chunks, as the library keeps it per channel.
 */
module MavParser {
  import opened Wrappers
  import opened MavLink

  /**
   * A decoded inbound message; `Other` stands for any id the dispatcher does not handle.
   * Status text and parameter ids arrive already decoded from their fixed `char` fields.
   */
  datatype Message =
    | Heartbeat(mavType: uint8, autopilot: uint8, baseMode: uint8, customMode: uint32, systemStatus: uint8)
    | Attitude(roll: real, pitch: real, yaw: real, rollspeed: real, pitchspeed: real, yawspeed: real)
    | StatusText(severity: uint8, text: string)
    | GlobalPositionInt(lat: int32, lon: int32, alt: int32, relativeAlt: int32)
    | ParamValue(paramId: string, paramValue: real, paramType: uint8)
    | Other(msgid: nat)

  function MsgId(m: Message): nat {
    match m
    case Heartbeat(_, _, _, _, _) => MsgIdHeartbeat
    case Attitude(_, _, _, _, _, _) => MsgIdAttitude
    case StatusText(_, _) => MsgIdStatusText
    case GlobalPositionInt(_, _, _, _) => MsgIdGlobalPositionInt
    case ParamValue(_, _, _) => MsgIdParamValue
    case Other(id) => id
  }

  /** The values handed to the five callbacks of `CF_GCSCallback_t`. */
  datatype Event =
    | HeartbeatEvent(isArmed: bool, vehicleType: uint8, autopilot: uint8, customMode: uint32, systemStatus: uint8)
    | AttitudeEvent(rollDeg: real, pitchDeg: real, yawDeg: real, rollRate: real, pitchRate: real, yawRate: real)
    | PositionEvent(lat: real, lon: real, altM: real, relativeAltM: real)
    | StatusTextEvent(text: string, severity: uint8)
    | ParamValueEvent(paramId: string, value: real)

  /** Which callback slots are non-null. */
  datatype Callbacks = Callbacks(
    onHeartbeat: bool, onAttitude: bool, onPosition: bool, onStatusText: bool, onParamValue: bool)

  /** The table the link manager registers: every slot set. */
  const AllCallbacks := Callbacks(true, true, true, true, true)

  /** `M_PI` */
  const Pi: real := 3.14159265358979323846

  function Degrees(radians: real): real {
    radians * 180.0 / Pi
  }

  /** The armed flag of a heartbeat: bit MAV_MODE_FLAG_SAFETY_ARMED of `base_mode`. */
  function IsArmed(baseMode: uint8): (armed: bool)
    ensures armed <==> baseMode >= 128
  {
    baseMode & MavModeFlagSafetyArmed != 0
  }

  /** `handle_message`: the event one decoded message produces, if any. */
  function HandleMessage(cb: Callbacks, m: Message): (r: Option<Event>)
    ensures m.Other? ==> r == None
    ensures m.Heartbeat? ==> (r.Some? <==> cb.onHeartbeat)
    ensures m.Attitude? ==> (r.Some? <==> cb.onAttitude)
    ensures m.StatusText? ==> (r.Some? <==> cb.onStatusText)
    ensures m.GlobalPositionInt? ==> (r.Some? <==> cb.onPosition)
    ensures m.ParamValue? ==> (r.Some? <==> cb.onParamValue && m.paramType == MavParamTypeReal32)
    ensures r.Some? && m.Heartbeat? ==>
      && r.value.HeartbeatEvent?
      && (r.value.isArmed <==> m.baseMode >= 128)
      && r.value.vehicleType == m.mavType && r.value.autopilot == m.autopilot
      && r.value.customMode == m.customMode && r.value.systemStatus == m.systemStatus
    ensures r.Some? && m.Attitude? ==>
      && r.value.AttitudeEvent?
      && r.value.rollDeg * Pi == m.roll * 180.0
      && r.value.pitchDeg * Pi == m.pitch * 180.0
      && r.value.yawDeg * Pi == m.yaw * 180.0
      && r.value.rollRate == m.rollspeed && r.value.pitchRate == m.pitchspeed
      && r.value.yawRate == m.yawspeed
    ensures r.Some? && m.GlobalPositionInt? ==>
      && r.value.PositionEvent?
      && r.value.lat * 10000000.0 == m.lat as real
      && r.value.lon * 10000000.0 == m.lon as real
      && r.value.altM * 1000.0 == m.alt as real
      && r.value.relativeAltM * 1000.0 == m.relativeAlt as real
    ensures r.Some? && m.StatusText? ==> r.value == StatusTextEvent(m.text, m.severity)
    ensures r.Some? && m.ParamValue? ==> r.value == ParamValueEvent(m.paramId, m.paramValue)
  {
    match m
    case Heartbeat(mavType, autopilot, baseMode, customMode, systemStatus) =>
      var armed := IsArmed(baseMode);
      if cb.onHeartbeat then Some(HeartbeatEvent(armed, mavType, autopilot, customMode, systemStatus))
      else None
    case Attitude(roll, pitch, yaw, rollspeed, pitchspeed, yawspeed) =>
      if cb.onAttitude
      then Some(AttitudeEvent(Degrees(roll), Degrees(pitch), Degrees(yaw), rollspeed, pitchspeed, yawspeed))
      else None
    case StatusText(severity, text) =>
      if cb.onStatusText then Some(StatusTextEvent(text, severity)) else None
    case GlobalPositionInt(lat, lon, alt, relativeAlt) =>
      if cb.onPosition
      then Some(PositionEvent(lat as real / 10000000.0, lon as real / 10000000.0,
                              alt as real / 1000.0, relativeAlt as real / 1000.0))
      else None
    case ParamValue(paramId, paramValue, paramType) =>
      if paramType != MavParamTypeReal32 then None
      else if cb.onParamValue then Some(ParamValueEvent(paramId, paramValue))
      else None
    case Other(_) => None
  }

  /** With every callback registered, only unknown ids and non-REAL32 parameters are dropped. */
  lemma {:induction false} RegisteredDispatch(m: Message)
    ensures HandleMessage(AllCallbacks, m).None? <==>
      m.Other? || (m.ParamValue? && m.paramType != MavParamTypeReal32)
  {
  }

  /** The framer: its state and one byte give its next state and maybe a completed message. */
  type Framer<!S> = (S, uint8) -> (S, Option<Message>)

  /** The events of one message, as a sequence of length 0 or 1. */
  function Dispatch(cb: Callbacks, m: Message): seq<Event> {
    match HandleMessage(cb, m)
    case Some(e) => [e]
    case None => []
  }

  /**
   * `CF_gcs_parser_process`: the bytes go to the framer one at a time, in order, and each
   * completed frame is dispatched at once. Returns the framer's final state and the events.
   */
  function Process<S>(step: Framer<S>, cb: Callbacks, st: S, bytes: seq<uint8>): (S, seq<Event>)
    decreases |bytes|
  {
    if bytes == [] then (st, [])
    else
      var (st1, frame) := step(st, bytes[0]);
      var here := match frame case Some(m) => Dispatch(cb, m) case None => [];
      var (st2, rest) := Process(step, cb, st1, bytes[1..]);
      (st2, here + rest)
  }

  /** Reference definition: the frames the framer completes on `bytes`, in order. */
  function Frames<S>(step: Framer<S>, st: S, bytes: seq<uint8>): seq<Message>
    decreases |bytes|
  {
    if bytes == [] then []
    else
      var (st1, frame) := step(st, bytes[0]);
      (match frame case Some(m) => [m] case None => []) + Frames(step, st1, bytes[1..])
  }

  /** The events are exactly the completed frames mapped through `handle_message`, in order. */
  lemma {:induction false} ProcessIsDispatchOfFrames<S>(step: Framer<S>, cb: Callbacks, st: S, bytes: seq<uint8>)
    ensures Process(step, cb, st, bytes).1 == CompactMap(Frames(step, st, bytes), m => HandleMessage(cb, m))
    decreases |bytes|
  {
    if bytes != [] {
      var (st1, frame) := step(st, bytes[0]);
      ProcessIsDispatchOfFrames(step, cb, st1, bytes[1..]);
      var head := match frame case Some(m) => [m] case None => [];
      CompactMapAppend(head, Frames(step, st1, bytes[1..]), m => HandleMessage(cb, m));
    }
  }

  /** A chunk in which no frame completes dispatches nothing. */
  lemma NoFrameNoEvent<S>(step: Framer<S>, cb: Callbacks, st: S, bytes: seq<uint8>)
    requires Frames(step, st, bytes) == []
    ensures Process(step, cb, st, bytes).1 == []
  {
    ProcessIsDispatchOfFrames(step, cb, st, bytes);
  }

  /**
   * Streaming: two chunks processed one after the other, with the framer state carried over,
   * give the same state and events as their concatenation processed at once.
   */
  lemma {:induction false} ProcessSplit<S>(step: Framer<S>, cb: Callbacks, st: S, a: seq<uint8>, b: seq<uint8>)
    ensures
      var (mid, first) := Process(step, cb, st, a);
      var (last, second) := Process(step, cb, mid, b);
      Process(step, cb, st, a + b) == (last, first + second)
    decreases |a|
  {
    if a == [] {
      assert a + b == b;
      var (last, second) := Process(step, cb, st, b);
      assert [] + second == second;
    } else {
      var (st1, frame) := step(st, a[0]);
      assert (a + b)[0] == a[0];
      assert (a + b)[1..] == a[1..] + b;
      ProcessSplit(step, cb, st1, a[1..], b);
      var here := match frame case Some(m) => Dispatch(cb, m) case None => [];
      var (mid, rest) := Process(step, cb, st1, a[1..]);
      var (last, second) := Process(step, cb, mid, b);
      assert Process(step, cb, st, a).1 == here + rest;
      assert Process(step, cb, st, a + b).1 == here + (rest + second);
      assert here + (rest + second) == (here + rest) + second;
    }
  }
}
