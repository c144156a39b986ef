/**
 * The home screen's view model: it turns link events into bounded telemetry histories,
 * forwards records to the session recorder while a session is recorded, gates the user's
 * commands on the link and arming state, shapes gamepad input into manual-control axes and
 * clears its state when the link drops. Combine subscriptions, timers and dispatch delays
 * become explicit events and requests; record timestamps are left out.
 */
module HomeViewModel {
  import opened Wrappers
  import opened MavLink
  import RingBuffer
  import StatusText
  import ControlShaping
  import SessionRecorder
  import LinkManager
  import Text

  type Ring<T> = RingBuffer.Ring<T>
  type Param = LinkManager.ParamEntry
  type Angles = StatusText.Angles
  type Routed = StatusText.Routed

  // ------------------------------------------------------------- telemetry

  datatype Altitude = Altitude(absolute: real, relative: real)

  /** Capacity of every telemetry history but the status-text log. */
  const HistoryCapacity: int := 25
  /** Capacity of the status-text log. */
  const StatusTextCapacity: int := 50

  /** A well-formed telemetry buffer of 25 slots. */
  type History<T> = b: Ring<T> | RingBuffer.Valid(b) && b.capacity == HistoryCapacity
    witness RingBuffer.Ring(seq(HistoryCapacity, _ => None), 0, 0, HistoryCapacity)

  /** A well-formed buffer of 50 slots, the status-text log's size. */
  type Log<T> = b: Ring<T> | RingBuffer.Valid(b) && b.capacity == StatusTextCapacity
    witness RingBuffer.Ring(seq(StatusTextCapacity, _ => None), 0, 0, StatusTextCapacity)

  /** `TelemetryData`: the armed flag, eight bounded histories and the parameter list. */
  datatype Telemetry = Telemetry(
    isArmed: bool,
    attitude: History<Angles>,
    statusText: Log<string>,
    motors: History<StatusText.Motors>,
    throttle: History<real>,
    pid: History<Angles>,
    target: History<Angles>,
    loopTime: History<StatusText.LoopTimes>,
    altitude: History<Altitude>,
    floatParams: seq<Param>)

  function NewTelemetry(): (t: Telemetry)
    ensures !t.isArmed && t.floatParams == []
  {
    Telemetry(false,
      RingBuffer.New(HistoryCapacity), RingBuffer.New(StatusTextCapacity), RingBuffer.New(HistoryCapacity),
      RingBuffer.New(HistoryCapacity), RingBuffer.New(HistoryCapacity), RingBuffer.New(HistoryCapacity),
      RingBuffer.New(HistoryCapacity), RingBuffer.New(HistoryCapacity), [])
  }

  // ----------------------------------------------------------------- state

  /** The four stick inputs, as the shaped values last set by the gamepad handlers. */
  datatype Sticks = Sticks(roll: real, pitch: real, yaw: real, throttle: real)

  const Centered := Sticks(0.0, 0.0, 0.0, 0.0)

  datatype Home = Home(
    connectingDrone: bool,
    isConnected: bool,
    connectionStatus: string,
    telemetry: Telemetry,
    isLoadingParameters: bool,
    isRecording: bool,
    sticks: Sticks,
    maxManualThrottle: real,
    maxManualThrottleText: string,
    stickyThrottle: bool,
    manualControlActive: bool,
    recorder: SessionRecorder.Recorder)

  /** The state after `init()`. */
  function Initial(show: real -> string): (h: Home)
    ensures h.sticks == Centered
    ensures h.maxManualThrottle == ControlShaping.DefaultMaxManualThrottle
  {
    Home(false, false, "Disconnected", NewTelemetry(), false, false, Centered,
      ControlShaping.DefaultMaxManualThrottle, show(ControlShaping.DefaultMaxManualThrottle),
      false, false, SessionRecorder.Fresh)
  }

  /** What the view model asks of the link manager or of the main queue, or a trap. */
  datatype Request =
    | LinkConnect
    | LinkDisconnect
    | LinkAction(action: LinkManager.Action)
    | LinkRemoveParamList
    | FetchParametersAfter(seconds: real)
    | Crash  // a runtime trap: the app stops here

  datatype Step = Step(home: Home, requests: seq<Request>)

  /**
   * Which program runs: the code as written, or with two defects fixed: the max throttle
   * field accepts [0, 1] only, and the snapshot reader takes the value after the last comma
   * and skips rows without one.
   */
  datatype Build = AsWritten | Corrected

  /** The outside world as the view model sees it during one event, and the build that runs. */
  datatype Env = Env(
    parse: StatusText.FloatParser,
    show: real -> string,
    stamp: string,
    encode: string -> seq<uint8>,
    files: SessionRecorder.Environment,
    now: SessionRecorder.DateTime,
    build: Build)

  // ------------------------------------------------------ telemetry sinks

  /** A `write*` call on the recorder, made only while a session is recorded. */
  function Record(h: Home, x: SessionRecorder.Sample, env: Env): (h': Home)
    ensures h'.telemetry == h.telemetry && h'.isRecording == h.isRecording
    ensures !h.isRecording ==> h'.recorder == h.recorder
    ensures h.isRecording ==> h'.recorder == SessionRecorder.Write(h.recorder, env.stamp, x, env.show)
  {
    if h.isRecording then h.(recorder := SessionRecorder.Write(h.recorder, env.stamp, x, env.show)) else h
  }

  /** One telemetry record, tagged with the history it belongs to. */
  datatype TelemetryRecord =
    | AttitudeRecord(angles: Angles)
    | MotorsRecord(motors: StatusText.Motors)
    | PidRecord(angles: Angles)
    | ThrottleRecord(value: real)
    | TargetRecord(angles: Angles)
    | LoopTimeRecord(loopTime: StatusText.LoopTimes)
    | AltitudeRecord(altitude: Altitude)

  /** The `write*` call a record is forwarded to. */
  function SampleOf(rec: TelemetryRecord): SessionRecorder.Sample {
    match rec
    case AttitudeRecord(a) => SessionRecorder.AttitudeSample(a.roll, a.pitch, a.yaw)
    case MotorsRecord(m) => SessionRecorder.MotorsSample(m.m1, m.m2, m.m3, m.m4)
    case PidRecord(a) => SessionRecorder.PidSample(a.roll, a.pitch, a.yaw)
    case ThrottleRecord(v) => SessionRecorder.ThrottleSample(v)
    case TargetRecord(a) => SessionRecorder.TargetSample(a.roll, a.pitch, a.yaw)
    case LoopTimeRecord(lt) => SessionRecorder.LoopTimeSample(lt.avg, lt.current)
    case AltitudeRecord(alt) => SessionRecorder.AltitudeSample(alt.absolute, alt.relative)
  }

  /** A sink's handling of one record: appended to its history, then forwarded while recording. */
  function Add(h: Home, rec: TelemetryRecord, env: Env): (h': Home)
  {
    var t := h.telemetry;
    var t' := match rec
      case AttitudeRecord(a) => t.(attitude := RingBuffer.Append(t.attitude, a))
      case MotorsRecord(m) => t.(motors := RingBuffer.Append(t.motors, m))
      case PidRecord(a) => t.(pid := RingBuffer.Append(t.pid, a))
      case ThrottleRecord(v) => t.(throttle := RingBuffer.Append(t.throttle, v))
      case TargetRecord(a) => t.(target := RingBuffer.Append(t.target, a))
      case LoopTimeRecord(lt) => t.(loopTime := RingBuffer.Append(t.loopTime, lt))
      case AltitudeRecord(alt) => t.(altitude := RingBuffer.Append(t.altitude, alt));
    Record(h.(telemetry := t'), SampleOf(rec), env)
  }

  /** Several records, handled in order. */
  function AddAll(h: Home, recs: seq<TelemetryRecord>, env: Env): (h': Home)
    decreases |recs|
  {
    if recs == [] then h else AddAll(Add(h, recs[0], env), recs[1..], env)
  }

  /** The item an optional record contributes to a history. */
  function Items<T>(o: Option<T>): seq<T> {
    match o
    case Some(x) => [x]
    case None => []
  }

  /**
   * The records a routed status text yields, in the order the sink handles them: for
   * `DBG:` motors, then PID, then throttle, each only if it decoded.
   */
  function RecordsOf(r: Routed): seq<TelemetryRecord> {
    match r
    case Debug(motors, pid, throttle) => Lift(motors, m => MotorsRecord(m)) + Lift(pid, a => PidRecord(a)) + Lift(throttle, x => ThrottleRecord(x))
    case Target(target) => Lift(target, a => TargetRecord(a))
    case LoopTime(loopTime) => Lift(loopTime, lt => LoopTimeRecord(lt))
    case Plain(_) => []
  }

  /** The record an optional decoded value gives, if any. */
  function Lift<T>(o: Option<T>, tag: T -> TelemetryRecord): seq<TelemetryRecord> {
    match o
    case Some(x) => [tag(x)]
    case None => []
  }

  /**
   * The status-text sink: the text is routed on its prefix; each record the branch yields
   * goes to its own history (and to the recorder while recording); an untagged text goes
   * to the status-text log as is.
   */
  function OnStatusText(h: Home, text: string, env: Env): (h': Home)
  {
    var route := StatusText.Route(text, env.parse);
    if route.Plain? then
      var t := h.telemetry;
      h.(telemetry := t.(statusText := RingBuffer.Append(t.statusText, text)))
    else AddAll(h, RecordsOf(route), env)
  }

  function Stamped(samples: seq<SessionRecorder.Sample>, stamp: string): (es: seq<SessionRecorder.Entry>)
    ensures |es| == |samples|
    decreases |samples|
  {
    if samples == [] then [] else [SessionRecorder.Entry(stamp, samples[0])] + Stamped(samples[1..], stamp)
  }

  /** The recorder after the given `write*` calls, one after the other. */
  function WriteSamples(r: SessionRecorder.Recorder, samples: seq<SessionRecorder.Sample>, env: Env): SessionRecorder.Recorder
    decreases |samples|
  {
    if samples == [] then r else WriteSamples(SessionRecorder.Write(r, env.stamp, samples[0], env.show), samples[1..], env)
  }

  lemma {:induction false} WriteSamplesConcat(r: SessionRecorder.Recorder, a: seq<SessionRecorder.Sample>, b: seq<SessionRecorder.Sample>, env: Env)
    ensures WriteSamples(r, a + b, env) == WriteSamples(WriteSamples(r, a, env), b, env)
    decreases |a|
  {
    if a != [] {
      assert (a + b)[0] == a[0] && (a + b)[1..] == a[1..] + b;
      WriteSamplesConcat(SessionRecorder.Write(r, env.stamp, a[0], env.show), a[1..], b, env);
    } else {
      assert a + b == b;
    }
  }

  /** The sink's writes are the recorder's batch write of the same samples, all with one timestamp. */
  lemma {:induction false} WriteSamplesAreWriteAll(r: SessionRecorder.Recorder, samples: seq<SessionRecorder.Sample>, env: Env)
    ensures WriteSamples(r, samples, env) == SessionRecorder.WriteAll(r, Stamped(samples, env.stamp), env.show)
    decreases |samples|
  {
    if samples != [] {
      var es := Stamped(samples, env.stamp);
      SessionRecorder.WriteAllSteps(r, es, env.show);
      assert es[0] == SessionRecorder.Entry(env.stamp, samples[0]) && es[1..] == Stamped(samples[1..], env.stamp);
      WriteSamplesAreWriteAll(SessionRecorder.Write(r, env.stamp, samples[0], env.show), samples[1..], env);
    }
  }

  /** The telemetry as histories: each buffer read back oldest first. */
  datatype View = View(
    isArmed: bool,
    attitude: seq<Angles>,
    statusText: seq<string>,
    motors: seq<StatusText.Motors>,
    throttle: seq<real>,
    pid: seq<Angles>,
    target: seq<Angles>,
    loopTime: seq<StatusText.LoopTimes>,
    altitude: seq<Altitude>,
    floatParams: seq<Param>)

  /** No history is longer than its buffer's capacity. */
  predicate ViewBounded(v: View) {
    && |v.attitude| <= HistoryCapacity && |v.statusText| <= StatusTextCapacity && |v.motors| <= HistoryCapacity
    && |v.throttle| <= HistoryCapacity && |v.pid| <= HistoryCapacity && |v.target| <= HistoryCapacity
    && |v.loopTime| <= HistoryCapacity && |v.altitude| <= HistoryCapacity
  }

  function ViewOf(t: Telemetry): (v: View)
    ensures ViewBounded(v)
  {
    View(t.isArmed,
      RingBuffer.Elements(t.attitude), RingBuffer.Elements(t.statusText), RingBuffer.Elements(t.motors),
      RingBuffer.Elements(t.throttle), RingBuffer.Elements(t.pid), RingBuffer.Elements(t.target),
      RingBuffer.Elements(t.loopTime), RingBuffer.Elements(t.altitude), t.floatParams)
  }

  /** Appending to a bounded history of capacity `n`. */
  function Keep<T>(history: seq<T>, items: seq<T>, n: nat): seq<T> {
    RingBuffer.Last(history + items, n)
  }

  /**
   * What a status text does to the histories, stated over sequences: each record of the
   * routed branch lands in its own history, an untagged text in the log, nothing else moves.
   */
  function Expected(v: View, r: Routed, text: string): View {
    match r
    case Debug(motors, pid, throttle) =>
      v.(motors := Keep(v.motors, Items(motors), HistoryCapacity),
         pid := Keep(v.pid, Items(pid), HistoryCapacity),
         throttle := Keep(v.throttle, Items(throttle), HistoryCapacity))
    case Target(target) => v.(target := Keep(v.target, Items(target), HistoryCapacity))
    case LoopTime(loopTime) => v.(loopTime := Keep(v.loopTime, Items(loopTime), HistoryCapacity))
    case Plain(_) => v.(statusText := Keep(v.statusText, [text], StatusTextCapacity))
  }

  lemma KeepNothing<T>(history: seq<T>, n: nat)
    requires |history| <= n
    ensures Keep(history, [], n) == history
  {
    assert history + [] == history;
  }

  /** One record at the level of histories. */
  function Push(v: View, rec: TelemetryRecord): View {
    match rec
    case AttitudeRecord(a) => v.(attitude := Keep(v.attitude, [a], HistoryCapacity))
    case MotorsRecord(m) => v.(motors := Keep(v.motors, [m], HistoryCapacity))
    case PidRecord(a) => v.(pid := Keep(v.pid, [a], HistoryCapacity))
    case ThrottleRecord(x) => v.(throttle := Keep(v.throttle, [x], HistoryCapacity))
    case TargetRecord(a) => v.(target := Keep(v.target, [a], HistoryCapacity))
    case LoopTimeRecord(lt) => v.(loopTime := Keep(v.loopTime, [lt], HistoryCapacity))
    case AltitudeRecord(alt) => v.(altitude := Keep(v.altitude, [alt], HistoryCapacity))
  }

  function PushAll(v: View, recs: seq<TelemetryRecord>): View
    decreases |recs|
  {
    if recs == [] then v else PushAll(Push(v, recs[0]), recs[1..])
  }

  /** The `write*` calls the records are forwarded to, in order. */
  function Samples(recs: seq<TelemetryRecord>): (xs: seq<SessionRecorder.Sample>)
    ensures |xs| == |recs|
    decreases |recs|
  {
    if recs == [] then [] else [SampleOf(recs[0])] + Samples(recs[1..])
  }

  /** Handling one record appends it to its own history and to no other. */
  lemma AddView(h: Home, rec: TelemetryRecord, env: Env)
    ensures ViewOf(Add(h, rec, env).telemetry) == Push(ViewOf(h.telemetry), rec)
  {
    var t, t' := h.telemetry, Add(h, rec, env).telemetry;
    var v := ViewOf(t);
    match rec {
      case AttitudeRecord(a) =>
        RingBuffer.AppendElements(t.attitude, a);
        assert ViewOf(t') == v.(attitude := Keep(v.attitude, [a], HistoryCapacity));
      case MotorsRecord(m) =>
        RingBuffer.AppendElements(t.motors, m);
        assert ViewOf(t') == v.(motors := Keep(v.motors, [m], HistoryCapacity));
      case PidRecord(a) =>
        RingBuffer.AppendElements(t.pid, a);
        assert ViewOf(t') == v.(pid := Keep(v.pid, [a], HistoryCapacity));
      case ThrottleRecord(x) =>
        RingBuffer.AppendElements(t.throttle, x);
        assert ViewOf(t') == v.(throttle := Keep(v.throttle, [x], HistoryCapacity));
      case TargetRecord(a) =>
        RingBuffer.AppendElements(t.target, a);
        assert ViewOf(t') == v.(target := Keep(v.target, [a], HistoryCapacity));
      case LoopTimeRecord(lt) =>
        RingBuffer.AppendElements(t.loopTime, lt);
        assert ViewOf(t') == v.(loopTime := Keep(v.loopTime, [lt], HistoryCapacity));
      case AltitudeRecord(alt) =>
        RingBuffer.AppendElements(t.altitude, alt);
        assert ViewOf(t') == v.(altitude := Keep(v.altitude, [alt], HistoryCapacity));
    }
  }

  /** A record reaches the recorder exactly while recording, and nothing but telemetry and recorder changes. */
  lemma AddRecords(h: Home, rec: TelemetryRecord, env: Env)
    ensures var h' := Add(h, rec, env);
      && h'.recorder == (if h.isRecording then SessionRecorder.Write(h.recorder, env.stamp, SampleOf(rec), env.show) else h.recorder)
      && h' == h.(telemetry := h'.telemetry, recorder := h'.recorder)
  {
  }

  /** Records handled in order: the histories follow `PushAll`, the recorder the forwarded writes. */
  lemma {:induction false} AddAllEffect(h: Home, recs: seq<TelemetryRecord>, env: Env)
    ensures var h' := AddAll(h, recs, env);
      && ViewOf(h'.telemetry) == PushAll(ViewOf(h.telemetry), recs)
      && h'.recorder == (if h.isRecording then WriteSamples(h.recorder, Samples(recs), env) else h.recorder)
      && h' == h.(telemetry := h'.telemetry, recorder := h'.recorder)
    decreases |recs|
  {
    if recs != [] {
      var h1 := Add(h, recs[0], env);
      AddView(h, recs[0], env);
      AddRecords(h, recs[0], env);
      AddAllEffect(h1, recs[1..], env);
      assert Samples(recs)[0] == SampleOf(recs[0]) && Samples(recs)[1..] == Samples(recs[1..]);
    }
  }

  lemma {:induction false} PushAllConcat(v: View, a: seq<TelemetryRecord>, b: seq<TelemetryRecord>)
    ensures PushAll(v, a + b) == PushAll(PushAll(v, a), b)
    decreases |a|
  {
    if a != [] {
      assert (a + b)[0] == a[0] && (a + b)[1..] == a[1..] + b;
      PushAllConcat(Push(v, a[0]), a[1..], b);
    } else {
      assert a + b == b;
    }
  }

  lemma PushAllOne(v: View, rec: TelemetryRecord)
    ensures PushAll(v, [rec]) == Push(v, rec)
  {
    assert [rec][1..] == [];
  }

  /** At the level of histories, a routed text's records do what `Expected` says. */
  lemma PushAllRouted(v: View, r: Routed, text: string)
    requires ViewBounded(v) && !r.Plain?
    ensures PushAll(v, RecordsOf(r)) == Expected(v, r, text)
  {
    match r {
      case Debug(motors, pid, throttle) =>
        var ms, ps, ts := Lift(motors, m => MotorsRecord(m)), Lift(pid, a => PidRecord(a)), Lift(throttle, x => ThrottleRecord(x));
        PushAllConcat(v, ms + ps, ts);
        PushAllConcat(v, ms, ps);
        var v1 := v.(motors := Keep(v.motors, Items(motors), HistoryCapacity));
        var v2 := v1.(pid := Keep(v.pid, Items(pid), HistoryCapacity));
        if motors.Some? { PushAllOne(v, ms[0]); } else { KeepNothing(v.motors, HistoryCapacity); }
        assert PushAll(v, ms) == v1;
        if pid.Some? { PushAllOne(v1, ps[0]); } else { KeepNothing(v.pid, HistoryCapacity); }
        assert PushAll(v1, ps) == v2;
        if throttle.Some? { PushAllOne(v2, ts[0]); } else { KeepNothing(v.throttle, HistoryCapacity); }
      case Target(target) =>
        if target.Some? { PushAllOne(v, TargetRecord(target.value)); } else { KeepNothing(v.target, HistoryCapacity); }
      case LoopTime(loopTime) =>
        if loopTime.Some? { PushAllOne(v, LoopTimeRecord(loopTime.value)); } else { KeepNothing(v.loopTime, HistoryCapacity); }
    }
  }

  /**
   * The status-text sink, end to end: the histories change as `Expected` says for the
   * route `Route` picks, the recorder receives exactly that route's records while recording
   * (and nothing otherwise), and no other field of the view model changes.
   */
  lemma StatusTextEffect(h: Home, text: string, env: Env)
    ensures var r := StatusText.Route(text, env.parse);
      var h' := OnStatusText(h, text, env);
      && ViewOf(h'.telemetry) == Expected(ViewOf(h.telemetry), r, text)
      && h'.recorder == (if h.isRecording then WriteSamples(h.recorder, Samples(RecordsOf(r)), env) else h.recorder)
      && h' == h.(telemetry := h'.telemetry, recorder := h'.recorder)
  {
    var r := StatusText.Route(text, env.parse);
    if r.Plain? {
      RingBuffer.AppendElements(h.telemetry.statusText, text);
    } else {
      AddAllEffect(h, RecordsOf(r), env);
      PushAllRouted(ViewOf(h.telemetry), r, text);
    }
  }

  // ------------------------------------------------------------ link events

  /** `resetTelemetryData()`: clears attitude, motors, target, PID and loop time only. */
  function ResetTelemetry(t: Telemetry): Telemetry {
    t.(attitude := RingBuffer.RemoveAll(t.attitude), motors := RingBuffer.RemoveAll(t.motors),
       target := RingBuffer.RemoveAll(t.target), pid := RingBuffer.RemoveAll(t.pid),
       loopTime := RingBuffer.RemoveAll(t.loopTime))
  }

  /** `clenaup()`: link flag down, sticks centred, five histories cleared, manual control off. */
  function Cleanup(h: Home): Home {
    h.(isConnected := false, sticks := Centered, telemetry := ResetTelemetry(h.telemetry), manualControlActive := false)
  }

  /**
   * After a cleanup the attitude, motor, target, PID and loop-time histories are empty; the
   * throttle, altitude and status-text histories, the armed flag, the parameters, the
   * recorder and the recording flag are as they were.
   */
  lemma CleanupEffect(h: Home)
    ensures var h', v, v' := Cleanup(h), ViewOf(h.telemetry), ViewOf(Cleanup(h).telemetry);
      && v'.attitude == [] && v'.motors == [] && v'.target == [] && v'.pid == [] && v'.loopTime == []
      && v'.throttle == v.throttle && v'.altitude == v.altitude && v'.statusText == v.statusText
      && v'.isArmed == v.isArmed && v'.floatParams == v.floatParams
      && !h'.isConnected && h'.sticks == Centered && !h'.manualControlActive
      && h'.recorder == h.recorder && h'.isRecording == h.isRecording
  {
  }

  /** The connection-status sink. */
  function OnConnectionState(h: Home, s: LinkManager.ConnectionState): (r: Step)
    ensures r.home.isConnected == if s.Connecting? then h.isConnected else s.Connected?
    ensures r.home.connectingDrone <==> s.Connecting?
    ensures r.requests == if s.Connected? then [FetchParametersAfter(1.0)] else []
  {
    match s
    case Connecting => Step(h.(connectingDrone := true, connectionStatus := "Connecting to Drone"), [])
    case Connected =>
      Step(h.(connectingDrone := false, isConnected := true, connectionStatus := "Connected"), [FetchParametersAfter(1.0)])
    case Failed => Step(Cleanup(h.(connectingDrone := false, isConnected := false, connectionStatus := "Failed to Connect")), [])
    case NotConnected => Step(Cleanup(h.(connectingDrone := false, isConnected := false, connectionStatus := "Disconnected")), [])
  }

  /** A dropped link cleans up; a connecting or connected link touches no history, stick or recorder. */
  lemma ConnectionStateEffect(h: Home, s: LinkManager.ConnectionState)
    ensures (s.Failed? || s.NotConnected?) ==>
      OnConnectionState(h, s).home == Cleanup(h).(connectingDrone := false, connectionStatus := OnConnectionState(h, s).home.connectionStatus)
    ensures (s.Connecting? || s.Connected?) ==>
      var h' := OnConnectionState(h, s).home;
      h'.telemetry == h.telemetry && h'.sticks == h.sticks && h'.recorder == h.recorder && h'.manualControlActive == h.manualControlActive
  {
  }

  /** The heartbeat sink: a change of the armed flag centres the sticks. */
  function OnHeartbeat(h: Home, armed: bool): (h': Home)
    ensures h'.telemetry == h.telemetry.(isArmed := armed)
    ensures h'.sticks == if h.telemetry.isArmed != armed then Centered else h.sticks
    ensures h' == h.(telemetry := h'.telemetry, sticks := h'.sticks)
  {
    var h1 := if h.telemetry.isArmed != armed then h.(sticks := Centered) else h;
    h1.(telemetry := h1.telemetry.(isArmed := armed))
  }

  /** The parameter-list sink: loading ends and the list is replaced. */
  function OnParamList(h: Home, params: seq<Param>): (h': Home)
    ensures !h'.isLoadingParameters && h'.telemetry == h.telemetry.(floatParams := params)
  {
    h.(isLoadingParameters := false, telemetry := h.telemetry.(floatParams := params))
  }

  // --------------------------------------------------------------- commands

  function NoRequest(h: Home): Step {
    Step(h, [])
  }

  /** `connectToMAVLink()`: only when neither connecting nor connected. */
  function ConnectToMavLink(h: Home): Step {
    if h.connectingDrone || h.isConnected then NoRequest(h) else Step(h, [LinkConnect])
  }

  /** `armDrone()`: sends ARM and starts the manual-control timer, when connected. */
  function ArmDrone(h: Home): Step {
    if !h.isConnected then NoRequest(h)
    else Step(h.(manualControlActive := true), [LinkAction(LinkManager.Arm)])
  }

  /** `disarmDrone()`: sends DISARM and stops the manual-control timer, when connected. */
  function DisarmDrone(h: Home): Step {
    if !h.isConnected then NoRequest(h)
    else Step(h.(manualControlActive := false), [LinkAction(LinkManager.Disarm)])
  }

  function ArmOrDisarm(h: Home): Step {
    if h.telemetry.isArmed then DisarmDrone(h) else ArmDrone(h)
  }

  /** `getAllParameters()`: when connected and not already loading. */
  function GetAllParameters(h: Home): Step {
    if !h.isConnected || h.isLoadingParameters then NoRequest(h)
    else Step(h.(isLoadingParameters := true), [LinkAction(LinkManager.RequestParamList)])
  }

  /** `updateParameter(name:value:)`: nothing for a missing value. */
  function UpdateParameter(h: Home, name: string, value: Option<real>, env: Env): Step {
    match value
    case None => NoRequest(h)
    case Some(v) => Step(h, [LinkAction(LinkManager.SetParam(env.encode(name), v))])
  }

  function RequestImuCalibration(h: Home): Step {
    if !h.isConnected || h.telemetry.isArmed then NoRequest(h) else Step(h, [LinkAction(LinkManager.CalibrateImu)])
  }

  function RequestBaroCalibration(h: Home): Step {
    if !h.isConnected || h.telemetry.isArmed then NoRequest(h) else Step(h, [LinkAction(LinkManager.CalibrateBaro)])
  }

  function RequestTakeOff(h: Home): Step {
    if !h.isConnected || !h.telemetry.isArmed then NoRequest(h) else Step(h, [LinkAction(LinkManager.Takeoff)])
  }

  /** `recordSession()`: only armed and connected; a throwing start is ignored. */
  function RecordSession(h: Home, env: Env): Home {
    if !h.telemetry.isArmed || !h.isConnected then h
    else h.(isRecording := true, recorder := SessionRecorder.StartRecording(h.recorder, env.files, env.now).0)
  }

  /** `saveSession()`: only while recording; the current parameter list is snapshotted. */
  function SaveSession(h: Home, env: Env): Home {
    if !h.isRecording then h
    else h.(isRecording := false,
            recorder := SessionRecorder.StopRecording(h.recorder, h.telemetry.floatParams, env.stamp, env.show))
  }

  function RecordOrStopSession(h: Home, env: Env): (h': Home)
    ensures h'.isRecording == if h.isRecording then false else h.telemetry.isArmed && h.isConnected
    ensures h'.isRecording != h.isRecording ==>
      h'.recorder == if h.isRecording then SessionRecorder.StopRecording(h.recorder, h.telemetry.floatParams, env.stamp, env.show)
                     else SessionRecorder.StartRecording(h.recorder, env.files, env.now).0
    ensures h'.isRecording == h.isRecording ==> h' == h
    ensures h' == h.(isRecording := h'.isRecording, recorder := h'.recorder)
  {
    if h.isRecording then SaveSession(h, env) else RecordSession(h, env)
  }

  /** `getLastParametersData()` in the build that runs; `None` where it traps. */
  function LastParameters(content: Option<string>, env: Env): Option<seq<Param>> {
    match env.build
    case AsWritten => SessionRecorder.ReadSnapshotAsWritten(content, env.parse)
    case Corrected => Some(SessionRecorder.ReadSnapshot(content, env.parse))
  }

  /**
   * `updateParametersFromLastSession()`: with a non-empty snapshot, the manager's list is
   * emptied, every parameter is sent in the snapshot's order, and a fetch is scheduled 2.5 s
   * later. Where reading the snapshot traps, the app stops before sending anything.
   */
  function UpdateParametersFromLastSession(h: Home, content: Option<string>, env: Env): (r: Step)
    ensures r.home == h
    ensures LastParameters(content, env).None? <==> r.requests == [Crash]
    ensures LastParameters(content, env).Some? ==>
      var ps := LastParameters(content, env).value;
      if |ps| == 0 then r.requests == []
      else && |r.requests| == |ps| + 2
           && r.requests[0] == LinkRemoveParamList && r.requests[|ps| + 1] == FetchParametersAfter(2.5)
           && forall i :: 0 <= i < |ps| ==> r.requests[i + 1] == SetRequest(ps[i], env)
  {
    match LastParameters(content, env)
    case None => Step(h, [Crash])
    case Some(params) =>
      if |params| == 0 then NoRequest(h)
      else Step(h, [LinkRemoveParamList] + SetRequests(params, env) + [FetchParametersAfter(2.5)])
  }

  /**
   * As written, restoring traps exactly when some line of the snapshot has fewer than two
   * comma-separated fields (a line with no comma-separated second field, such as the row
   * of a parameter with an empty id).
   */
  lemma LastSessionTrapsAsWritten(h: Home, text: string, env: Env)
    requires env.build == AsWritten
    ensures var lines := Text.Split(text, '\n');
      UpdateParametersFromLastSession(h, Some(text), env).requests == [Crash]
      <==> exists i :: 0 <= i < |lines| && |Text.Split(lines[i], ',')| < 2
  {
    var lines := Text.Split(text, '\n');
    SessionRecorder.ReadLinesAsWrittenTraps(lines, env.parse);
    forall i | 0 <= i < |lines|
      ensures SessionRecorder.ReadLineAsWritten(lines[i], env.parse).Trap? <==> |Text.Split(lines[i], ',')| < 2
    {
    }
  }

  /** In the corrected build, restoring never traps. */
  lemma LastSessionNeverTrapsCorrected(h: Home, content: Option<string>, env: Env)
    requires env.build == Corrected
    ensures Crash !in UpdateParametersFromLastSession(h, content, env).requests
  {
    var r := UpdateParametersFromLastSession(h, content, env);
    var ps := LastParameters(content, env).value;
    if |ps| > 0 {
      forall i | 0 <= i < |r.requests| ensures r.requests[i] != Crash {
        if 0 < i < |ps| + 1 {
          assert r.requests[(i - 1) + 1] == SetRequest(ps[i - 1], env);
        }
      }
    }
  }

  function SetRequest(p: Param, env: Env): Request {
    LinkAction(LinkManager.SetParam(env.encode(p.id), p.value))
  }

  /** One SET_PARAM request per parameter, in order. */
  function SetRequests(params: seq<Param>, env: Env): (rs: seq<Request>)
    ensures |rs| == |params|
    ensures forall i :: 0 <= i < |params| ==> rs[i] == SetRequest(params[i], env)
    decreases |params|
  {
    if params == [] then []
    else [SetRequest(params[0], env)] + SetRequests(params[1..], env)
  }

  /**
   * Restoring from a snapshot the recorder wrote sends exactly the saved parameters, in
   * ascending id order, between clearing the list and scheduling a fetch: as written for
   * non-empty, comma-free ids, and in the corrected build for any id without a newline.
   */
  lemma RestoreSendsSnapshot(h: Home, text: string, params: seq<Param>, env: Env)
    requires forall i :: 0 <= i < |params| ==> SessionRecorder.Writable(params[i], env.parse, env.show)
    requires env.build == AsWritten ==> forall i :: 0 <= i < |params| ==> SessionRecorder.PlainId(params[i])
    requires env.parse("value") == None && |params| > 0
    requires Text.Split(text, '\n') == [SessionRecorder.SnapshotHeader] + SessionRecorder.Rows(SessionRecorder.SortById(params), env.show)
    ensures var rs := UpdateParametersFromLastSession(h, Some(text), env).requests;
      var sorted := SessionRecorder.SortById(params);
      && |rs| == |params| + 2
      && rs[0] == LinkRemoveParamList && rs[|params| + 1] == FetchParametersAfter(2.5)
      && forall i :: 0 <= i < |params| ==> rs[i + 1] == SetRequest(sorted[i], env)
  {
    match env.build
    case AsWritten => SessionRecorder.SnapshotRoundTripAsWritten(text, params, env.parse, env.show);
    case Corrected => SessionRecorder.SnapshotRoundTrip(text, params, env.parse, env.show);
  }

  /** As written, restoring a snapshot the recorder wrote with an empty id traps. */
  lemma RestoreTrapsOnEmptyId(h: Home, params: seq<Param>, env: Env, k: nat)
    requires env.build == AsWritten
    requires forall i :: 0 <= i < |params| ==> SessionRecorder.Writable(params[i], env.parse, env.show)
    requires k < |params| && params[k].id == []
    ensures var text := Text.Lines(SessionRecorder.SnapshotLines(params, env.show));
      UpdateParametersFromLastSession(h, Some(text), env).requests == [Crash]
  {
    SessionRecorder.SnapshotFileLines(params, env.parse, env.show);
    SessionRecorder.EmptyIdTraps(params, env.parse, env.show, k);
  }

  // ---------------------------------------------------------------- gamepad

  /** Left thumbstick: roll and pitch through the deadband, scaled by the maximum. */
  function LeftStick(h: Home, x: real, y: real): Home {
    h.(sticks := h.sticks.(roll := ControlShaping.ApplyDeadband(x, h.maxManualThrottle),
                           pitch := ControlShaping.ApplyDeadband(y, h.maxManualThrottle)))
  }

  /** Right thumbstick: the throttle, sticky or direct. */
  function RightStickMoved(h: Home, y: real): Home {
    h.(sticks := h.sticks.(throttle := ControlShaping.RightStick(h.sticks.throttle, y, h.maxManualThrottle, h.stickyThrottle)))
  }

  /** The field's range check in the build that runs. */
  function MaxUpdate(text: string, current: real, env: Env): ControlShaping.MaxUpdate {
    match env.build
    case AsWritten => ControlShaping.UpdateMaxManualThrottleAsWritten(text, current, env.parse, env.show)
    case Corrected => ControlShaping.UpdateMaxManualThrottle(text, current, env.parse, env.show)
  }

  /**
   * `updateMaxManualThrottle(_:)`: a number the range check admits becomes the maximum
   * (as written any number in [-1, 1], corrected only [0, 1]); anything else puts the current
   * maximum back into the field.
   */
  function UpdateMaxManualThrottle(h: Home, text: string, env: Env): (h': Home)
    ensures h' == h.(maxManualThrottle := h'.maxManualThrottle, maxManualThrottleText := h'.maxManualThrottleText)
    ensures var p := env.parse(text);
      if p.Some? && (if env.build.AsWritten? then -1.0 <= p.value <= 1.0 else ControlShaping.MaxInRange(p.value))
      then h'.maxManualThrottle == p.value && h'.maxManualThrottleText == h.maxManualThrottleText
      else h'.maxManualThrottle == h.maxManualThrottle && h'.maxManualThrottleText == env.show(h.maxManualThrottle)
    ensures ControlShaping.MaxAcceptedAsWritten(h.maxManualThrottle) ==> ControlShaping.MaxAcceptedAsWritten(h'.maxManualThrottle)
    ensures env.build.Corrected? && ControlShaping.MaxInRange(h.maxManualThrottle) ==> ControlShaping.MaxInRange(h'.maxManualThrottle)
  {
    match MaxUpdate(text, h.maxManualThrottle, env)
    case Accepted(v) => h.(maxManualThrottle := v)
    case Reverted(t) => h.(maxManualThrottleText := t)
  }

  /** What one tick of the 50 ms manual-control timer does. */
  datatype Tick =
    | Idle
    | Sends(action: LinkManager.Action)
    | Traps

  /**
   * One timer tick: nothing while disarmed; otherwise the four inputs times 1000, truncated
   * to `Int16` (which traps when out of range), as one MANUAL_CONTROL action.
   */
  function ManualTick(h: Home): (t: Tick)
    requires h.manualControlActive
    ensures t.Idle? <==> !h.telemetry.isArmed
    ensures t.Traps? <==>
      (h.telemetry.isArmed &&
       (|| ControlShaping.AxisValue(h.sticks.roll).None? || ControlShaping.AxisValue(h.sticks.pitch).None?
        || ControlShaping.AxisValue(h.sticks.yaw).None? || ControlShaping.AxisValue(h.sticks.throttle).None?))
    ensures t.Sends? ==> && t.action.ManualControl?
                         && ControlShaping.AxisValue(h.sticks.roll) == Some(t.action.roll)
                         && ControlShaping.AxisValue(h.sticks.pitch) == Some(t.action.pitch)
                         && ControlShaping.AxisValue(h.sticks.yaw) == Some(t.action.yaw)
                         && ControlShaping.AxisValue(h.sticks.throttle) == Some(t.action.throttle)
  {
    if !h.telemetry.isArmed then Idle
    else
      match (ControlShaping.AxisValue(h.sticks.roll), ControlShaping.AxisValue(h.sticks.pitch),
             ControlShaping.AxisValue(h.sticks.yaw), ControlShaping.AxisValue(h.sticks.throttle))
      case (Some(r), Some(p), Some(y), Some(th)) => Sends(LinkManager.ManualControl(r, p, y, th))
      case _ => Traps
  }

  // ----------------------------------------------------------------- events

  /** What the link manager publishes about the link itself. */
  datatype LinkEvent =
    | ConnectionChanged(state: LinkManager.ConnectionState)
    | Heartbeat(armed: bool)
    | ParamListReceived(params: seq<Param>)

  /** What the link manager publishes as telemetry. */
  datatype SinkEvent =
    | AttitudeReceived(angles: Angles)
    | AltitudeReceived(altitude: Altitude)
    | StatusTextReceived(text: string)

  /** Buttons on screen and on the gamepad. */
  datatype Command =
    | ConnectPressed
    | DisconnectPressed
    | ArmOrDisarmPressed
    | RecordOrStopPressed
    | RefreshParametersPressed
    | ParameterEdited(name: string, value: Option<real>)
    | LastSessionRequested(content: Option<string>)
    | ThrottleStyleToggled
    | ButtonA
    | ButtonB
    | ButtonX
    | ButtonY
    | ButtonMenu
    | ButtonOptions

  /** What shapes manual control: thumbsticks, controller presence, the maximum throttle field. */
  datatype ControlEvent =
    | StickConnected
    | StickDisconnected
    | LeftStickMoved(x: real, y: real)
    | RightStickMovedTo(y: real)
    | MaxThrottleEdited(text: string)

  datatype Event =
    | FromLink(link: LinkEvent)
    | FromTelemetry(sink: SinkEvent)
    | FromUser(command: Command)
    | FromControls(control: ControlEvent)

  function HandleLink(h: Home, e: LinkEvent): Step {
    match e
    case ConnectionChanged(s) => OnConnectionState(h, s)
    case Heartbeat(armed) => NoRequest(OnHeartbeat(h, armed))
    case ParamListReceived(ps) => NoRequest(OnParamList(h, ps))
  }

  function HandleSink(h: Home, e: SinkEvent, env: Env): Home {
    match e
    case AttitudeReceived(a) => Add(h, AttitudeRecord(a), env)
    case AltitudeReceived(alt) => Add(h, AltitudeRecord(alt), env)
    case StatusTextReceived(text) => OnStatusText(h, text, env)
  }

  function HandleCommand(h: Home, c: Command, env: Env): Step {
    match c
    case ConnectPressed => ConnectToMavLink(h)
    case DisconnectPressed => Step(h, [LinkDisconnect])
    case ArmOrDisarmPressed => ArmOrDisarm(h)
    case RecordOrStopPressed => NoRequest(RecordOrStopSession(h, env))
    case RefreshParametersPressed => GetAllParameters(h)
    case ParameterEdited(name, v) => UpdateParameter(h, name, v, env)
    case LastSessionRequested(content) => UpdateParametersFromLastSession(h, content, env)
    case ThrottleStyleToggled => NoRequest(h.(stickyThrottle := !h.stickyThrottle))
    case ButtonA => DisarmDrone(h)
    case ButtonB => ArmDrone(h)
    case ButtonX => NoRequest(RecordOrStopSession(h, env))
    case ButtonY => if h.telemetry.isArmed then RequestTakeOff(h) else NoRequest(h)
    case ButtonMenu => RequestImuCalibration(h)
    case ButtonOptions => RequestBaroCalibration(h)
  }

  function HandleControl(h: Home, e: ControlEvent, env: Env): Home {
    match e
    case StickConnected => h.(sticks := Centered)
    case StickDisconnected => h.(sticks := Centered)
    case LeftStickMoved(x, y) => LeftStick(h, x, y)
    case RightStickMovedTo(y) => RightStickMoved(h, y)
    case MaxThrottleEdited(text) => UpdateMaxManualThrottle(h, text, env)
  }

  /** The view model's reaction to one event. */
  function Handle(h: Home, e: Event, env: Env): Step {
    match e
    case FromLink(l) => HandleLink(h, l)
    case FromTelemetry(t) => NoRequest(HandleSink(h, t, env))
    case FromUser(c) => HandleCommand(h, c, env)
    case FromControls(c) => NoRequest(HandleControl(h, c, env))
  }

  /** The commands that send at most one request and are gated on the link or arming state. */
  predicate Gated(c: Command) {
    c.ConnectPressed? || c.ArmOrDisarmPressed? || c.RefreshParametersPressed? || c.ButtonA? || c.ButtonB?
    || c.ButtonY? || c.ButtonMenu? || c.ButtonOptions?
  }

  /** When each gated command is let through. */
  predicate Allowed(h: Home, c: Command)
    requires Gated(c)
  {
    var connected, armed := h.isConnected, h.telemetry.isArmed;
    match c
    case ConnectPressed => !h.connectingDrone && !connected
    case RefreshParametersPressed => connected && !h.isLoadingParameters
    case ButtonMenu => connected && !armed
    case ButtonOptions => connected && !armed
    case ButtonY => connected && armed
    case _ => connected
  }

  /** The request a gated command sends when it is let through. */
  function Sent(h: Home, c: Command): Request
    requires Gated(c)
  {
    match c
    case ConnectPressed => LinkConnect
    case RefreshParametersPressed => LinkAction(LinkManager.RequestParamList)
    case ButtonMenu => LinkAction(LinkManager.CalibrateImu)
    case ButtonOptions => LinkAction(LinkManager.CalibrateBaro)
    case ButtonY => LinkAction(LinkManager.Takeoff)
    case ButtonA => LinkAction(LinkManager.Disarm)
    case ButtonB => LinkAction(LinkManager.Arm)
    case _ => LinkAction(if h.telemetry.isArmed then LinkManager.Disarm else LinkManager.Arm)
  }

  /**
   * A gated command sends its request exactly when its guard holds, and otherwise changes
   * nothing at all.
   */
  lemma GatedCommands(h: Home, c: Command, env: Env)
    requires Gated(c)
    ensures HandleCommand(h, c, env).requests == if Allowed(h, c) then [Sent(h, c)] else []
    ensures !Allowed(h, c) ==> HandleCommand(h, c, env).home == h
  {
  }

  /** Among the commands, only a connected arm starts manual control and a connected disarm stops it. */
  lemma CommandManualControl(h: Home, c: Command, env: Env)
    ensures var on := HandleCommand(h, c, env).home.manualControlActive;
      && (on && !h.manualControlActive ==>
            h.isConnected && (c == ButtonB || (c == ArmOrDisarmPressed && !h.telemetry.isArmed)))
      && (!on && h.manualControlActive ==>
            h.isConnected && (c == ButtonA || (c == ArmOrDisarmPressed && h.telemetry.isArmed)))
  {
    if Gated(c) {
      GatedCommands(h, c, env);
    }
  }

  // -------------------------------------------------------------- invariant

  /** The stick inputs as the handlers can leave them; the yaw input is never set. */
  predicate SticksInRange(s: Sticks) {
    && ControlShaping.StickRange(s.roll) && ControlShaping.StickRange(s.pitch) && s.yaw == 0.0
    && ControlShaping.StickRange(s.throttle)
  }

  /**
   * What each build keeps: as written, a maximum in [-1, 1] and stick inputs in [-1, 1];
   * corrected, also a maximum in [0, 1] and a throttle input that is never negative.
   */
  predicate Inv(h: Home, b: Build) {
    && SticksInRange(h.sticks)
    && (match b
        case AsWritten => ControlShaping.MaxAcceptedAsWritten(h.maxManualThrottle)
        case Corrected => ControlShaping.MaxInRange(h.maxManualThrottle) && h.sticks.throttle >= 0.0)
  }

  /** Thumbstick positions the gamepad reports lie in [-1, 1]. */
  predicate InputInRange(e: Event) {
    match e
    case FromControls(LeftStickMoved(x, y)) => ControlShaping.StickRange(x) && ControlShaping.StickRange(y)
    case FromControls(RightStickMovedTo(y)) => ControlShaping.StickRange(y)
    case _ => true
  }

  lemma InitialInv(show: real -> string, b: Build)
    ensures Inv(Initial(show), b)
  {
  }

  /**
   * With a maximum the corrected field accepts, a right-stick event keeps the throttle input
   * in [0, 1], even above a lowered maximum.
   */
  lemma ThrottleStaysInUnit(throttle: real, y: real, maxThrottle: real, sticky: bool)
    requires ControlShaping.MaxInRange(maxThrottle) && ControlShaping.StickRange(y) && 0.0 <= throttle <= 1.0
    ensures 0.0 <= ControlShaping.RightStick(throttle, y, maxThrottle, sticky) <= 1.0
  {
    var shaped := ControlShaping.ApplyDeadband(y, maxThrottle);
    assert ControlShaping.Abs(shaped) <= maxThrottle;
  }

  /** The telemetry sinks touch only the telemetry and the recorder. */
  lemma SinkFrame(h: Home, e: SinkEvent, env: Env)
    ensures var h' := HandleSink(h, e, env);
      h' == h.(telemetry := h'.telemetry, recorder := h'.recorder)
  {
    match e
    case AttitudeReceived(a) => AddRecords(h, AttitudeRecord(a), env);
    case AltitudeReceived(alt) => AddRecords(h, AltitudeRecord(alt), env);
    case StatusTextReceived(text) =>
      var r := StatusText.Route(text, env.parse);
      if !r.Plain? {
        AddAllEffect(h, RecordsOf(r), env);
      }
  }

  /** Commands leave the sticks and the maximum alone. */
  lemma CommandKeepsControls(h: Home, c: Command, env: Env)
    ensures var h' := HandleCommand(h, c, env).home;
      h'.sticks == h.sticks && h'.maxManualThrottle == h.maxManualThrottle
  {
    if Gated(c) {
      GatedCommands(h, c, env);
      if Allowed(h, c) {
        GatedAllowedFrame(h, c, env);
      }
    }
  }

  /** A gated command that goes through changes at most the loading and manual-control flags. */
  lemma GatedAllowedFrame(h: Home, c: Command, env: Env)
    requires Gated(c) && Allowed(h, c)
    ensures var h' := HandleCommand(h, c, env).home;
      h' == h.(isLoadingParameters := h'.isLoadingParameters, manualControlActive := h'.manualControlActive)
  {
    if c.ArmOrDisarmPressed? || c.ButtonA? || c.ButtonB? {
      ArmCommandFrame(h, c, env);
    }
  }

  lemma ArmCommandFrame(h: Home, c: Command, env: Env)
    requires c.ArmOrDisarmPressed? || c.ButtonA? || c.ButtonB?
    ensures var h' := HandleCommand(h, c, env).home;
      h' == h.(manualControlActive := h'.manualControlActive)
  {
  }

  /**
   * The link sinks either keep the sticks or centre them, never start manual control, and
   * stop it only when the link drops.
   */
  lemma LinkEventKeepsControls(h: Home, e: LinkEvent)
    ensures var h' := HandleLink(h, e).home;
      && (h'.sticks == h.sticks || h'.sticks == Centered) && h'.maxManualThrottle == h.maxManualThrottle
      && (h'.manualControlActive ==> h.manualControlActive)
      && (h'.manualControlActive != h.manualControlActive ==>
            e.ConnectionChanged? && (e.state.Failed? || e.state.NotConnected?))
  {
    if e.ConnectionChanged? {
      ConnectionKeepsControls(h, e.state);
    }
  }

  lemma ConnectionKeepsControls(h: Home, s: LinkManager.ConnectionState)
    ensures var h' := OnConnectionState(h, s).home;
      && (h'.sticks == h.sticks || h'.sticks == Centered) && h'.maxManualThrottle == h.maxManualThrottle
      && (h'.manualControlActive ==> h.manualControlActive)
      && (h'.manualControlActive != h.manualControlActive ==> s.Failed? || s.NotConnected?)
  {
  }

  /** Control events change only the sticks and the maximum throttle, with its text. */
  lemma ControlFrame(h: Home, e: ControlEvent, env: Env)
    ensures var h' := HandleControl(h, e, env);
      h' == h.(sticks := h'.sticks, maxManualThrottle := h'.maxManualThrottle, maxManualThrottleText := h'.maxManualThrottleText)
  {
    match e
    case LeftStickMoved(x, y) =>
      assert LeftStick(h, x, y) == h.(sticks := LeftStick(h, x, y).sticks);
    case RightStickMovedTo(y) =>
      assert RightStickMoved(h, y) == h.(sticks := RightStickMoved(h, y).sticks);
    case MaxThrottleEdited(text) =>
    case StickConnected =>
    case StickDisconnected =>
  }

  /**
   * Manual control is switched on only by a connected arm command, and off only by a
   * connected disarm command or a dropped link.
   */
  lemma ManualControlSwitch(h: Home, e: Event, env: Env)
    ensures var on := Handle(h, e, env).home.manualControlActive;
      && (on && !h.manualControlActive ==>
            h.isConnected && (e == FromUser(ButtonB) || (e == FromUser(ArmOrDisarmPressed) && !h.telemetry.isArmed)))
      && (!on && h.manualControlActive ==>
            || (e.FromLink? && e.link.ConnectionChanged? && (e.link.state.Failed? || e.link.state.NotConnected?))
            || (h.isConnected && (e == FromUser(ButtonA) || (e == FromUser(ArmOrDisarmPressed) && h.telemetry.isArmed))))
  {
    match e
    case FromLink(l) => LinkEventKeepsControls(h, l);
    case FromTelemetry(t) => SinkFrame(h, t, env);
    case FromUser(c) => CommandManualControl(h, c, env);
    case FromControls(c) => ControlFrame(h, c, env);
  }

  /** Control events keep the maximum and the stick inputs in range, in either build. */
  lemma ControlKeepsInv(h: Home, e: ControlEvent, env: Env)
    requires Inv(h, env.build) && InputInRange(FromControls(e))
    ensures Inv(HandleControl(h, e, env), env.build)
  {
    match e
    case LeftStickMoved(x, y) =>
      assert ControlShaping.Abs(ControlShaping.ApplyDeadband(x, h.maxManualThrottle)) <= ControlShaping.Abs(h.maxManualThrottle) <= 1.0;
      assert ControlShaping.Abs(ControlShaping.ApplyDeadband(y, h.maxManualThrottle)) <= ControlShaping.Abs(h.maxManualThrottle) <= 1.0;
    case RightStickMovedTo(y) =>
      if env.build == AsWritten {
        ControlShaping.RightStickStaysInStickRange(h.sticks.throttle, y, h.maxManualThrottle, h.stickyThrottle);
      } else {
        ThrottleStaysInUnit(h.sticks.throttle, y, h.maxManualThrottle, h.stickyThrottle);
      }
    case _ =>
  }

  /** Every event keeps the stick inputs and the maximum in range, in either build. */
  lemma HandleKeepsInv(h: Home, e: Event, env: Env)
    requires Inv(h, env.build) && InputInRange(e)
    ensures Inv(Handle(h, e, env).home, env.build)
  {
    match e
    case FromLink(l) => LinkEventKeepsControls(h, l);
    case FromTelemetry(t) => SinkFrame(h, t, env);
    case FromUser(c) => CommandKeepsControls(h, c, env);
    case FromControls(c) => ControlKeepsInv(h, c, env);
  }

  /**
   * A run of events from `h`, with the requests collected in order; a step that traps ends
   * the run, since the app stops there.
   */
  function Run(h: Home, es: seq<Event>, env: Env): (r: Step)
    decreases |es|
  {
    if es == [] then Step(h, [])
    else
      var st := Handle(h, es[0], env);
      if Crash in st.requests then st
      else
        var rest := Run(st.home, es[1..], env);
        Step(rest.home, st.requests + rest.requests)
  }

  /** Nothing is requested after a trap, and in the corrected build no event traps. */
  lemma {:induction false} RunEndsAtCrash(h: Home, es: seq<Event>, env: Env)
    ensures var rs := Run(h, es, env).requests;
      Crash in rs ==> rs[|rs| - 1] == Crash && Crash !in rs[..|rs| - 1]
    ensures env.build == Corrected ==> Crash !in Run(h, es, env).requests
    decreases |es|
  {
    if es != [] {
      var st := Handle(h, es[0], env);
      HandleCrash(h, es[0], env);
      if Crash !in st.requests {
        RunEndsAtCrash(st.home, es[1..], env);
        var rest := Run(st.home, es[1..], env).requests;
        if Crash in rest {
          assert (st.requests + rest)[..|st.requests + rest| - 1] == st.requests + rest[..|rest| - 1];
        }
      }
    }
  }

  /** One event traps only as the whole of a last-session restore, and never when corrected. */
  lemma HandleCrash(h: Home, e: Event, env: Env)
    ensures var rs := Handle(h, e, env).requests;
      Crash in rs ==> rs == [Crash] && e.FromUser? && e.command.LastSessionRequested? && env.build == AsWritten
  {
    match e
    case FromUser(c) => CommandCrash(h, c, env);
    case FromLink(l) =>
    case FromTelemetry(_) =>
    case FromControls(_) =>
  }

  lemma CommandCrash(h: Home, c: Command, env: Env)
    ensures var rs := HandleCommand(h, c, env).requests;
      Crash in rs ==> rs == [Crash] && c.LastSessionRequested? && env.build == AsWritten
  {
    if c.LastSessionRequested? {
      if env.build == Corrected {
        LastSessionNeverTrapsCorrected(h, c.content, env);
      }
    } else if Gated(c) {
      GatedCommands(h, c, env);
    }
  }

  lemma {:induction false} RunKeepsInv(h: Home, es: seq<Event>, env: Env)
    requires Inv(h, env.build)
    requires forall i :: 0 <= i < |es| ==> InputInRange(es[i])
    ensures Inv(Run(h, es, env).home, env.build)
    decreases |es|
  {
    if es != [] {
      HandleKeepsInv(h, es[0], env);
      if Crash !in Handle(h, es[0], env).requests {
        RunKeepsInv(Handle(h, es[0], env).home, es[1..], env);
      }
    }
  }

  /** From launch, in-range gamepad input keeps the invariant of the build that runs. */
  lemma ReachableInv(show: real -> string, es: seq<Event>, env: Env)
    requires forall i :: 0 <= i < |es| ==> InputInRange(es[i])
    ensures Inv(Run(Initial(show), es, env).home, env.build)
  {
    InitialInv(show, env.build);
    RunKeepsInv(Initial(show), es, env);
  }

  /**
   * Under either build's invariant, an armed timer tick sends a MANUAL_CONTROL whose axes lie
   * in [-1000, 1000] with yaw 0: the `Int16` conversion never traps. In the corrected build
   * the throttle axis is also never negative.
   */
  lemma ManualTickNeverTraps(h: Home, b: Build)
    requires Inv(h, b) && h.manualControlActive
    ensures var t := ManualTick(h);
      && t != Traps
      && (t.Sends? ==>
            && -1000 <= t.action.roll <= 1000 && -1000 <= t.action.pitch <= 1000
            && t.action.yaw == 0 && -1000 <= t.action.throttle <= 1000
            && (b == Corrected ==> t.action.throttle >= 0))
  {
    ControlShaping.AxisValueFits(h.sticks.roll);
    ControlShaping.AxisValueFits(h.sticks.pitch);
    ControlShaping.AxisValueFits(h.sticks.yaw);
    ControlShaping.AxisValueFits(h.sticks.throttle);
  }
}
