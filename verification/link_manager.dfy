/**
 * `MAVLinkUDPManager`: the connection state machine of the ground station. Every event the
 * manager reacts to is a pure transition from the current `Link` to the next one plus the
 * effects it causes (publications, sends, scheduled work). Sockets, timers and tasks are
 * outside the model: their results arrive as event parameters (the discovery result, whether
 * a datagram was accepted by the socket, the current time, the reads of the receive loop).
 */
module LinkManager {
  import opened Wrappers
  import opened MavLink
  import MavParser
  import MavBuilder

  datatype ConnectionState = NotConnected | Connecting | Connected | Failed

  /** `maxMissedHeartbeat`: ticks in CONNECTING tolerated without a heartbeat. */
  const MaxMissedHeartbeat: nat := 10
  /** Failed discoveries retried before the link is declared FAILED. */
  const MaxFailedDiscovery: nat := 5
  /** Seconds of silence after which a CONNECTED link is dropped. */
  const HeartbeatTimeout: real := 10.0
  const DefaultPort: nat := 14550
  const DiscoveryTimeoutMs: nat := 5000
  /** Seconds before a failed discovery is retried. */
  const RetryDelay: real := 2.0
  /** Consecutive failed reads the receive loop tolerates. */
  const MaxConsecutiveErrors: nat := 100
  /** Size of the buffers the manager hands to the builders. */
  const SendBufferSize: nat := 280

  /** One entry of `paramList` (`MAVParamValuePacket` without its UUID). */
  datatype ParamEntry = ParamEntry(id: string, value: real)

  datatype Link = Link(
    state: ConnectionState,
    failedDiscoveryCount: nat,
    missedHeartbeatCount: nat,
    lastHeartbeatSent: Option<real>,
    lastHeartbeatReceived: Option<real>,
    /** the 0.5 s heartbeat timer is scheduled */
    timerActive: bool,
    /** `isReceiving` */
    receiving: bool,
    /** the socket's `is_connected` flag */
    transportOpen: bool,
    paramList: seq<ParamEntry>)

  const Initial := Link(NotConnected, 0, 0, None, None, false, false, false, [])

  datatype Effect =
    | Published(state: ConnectionState)
    | StartDiscovery(port: nat, timeoutMs: nat)
      /** `connect()` again, on the default port, after `delay` seconds */
    | RetryConnect(delay: real, port: nat)
    | TransportOpened(ip: string, port: nat)
    | StartReceiveLoop
    | Sent(frame: MavBuilder.Frame)
      /** a parser event handed on to the heartbeat, attitude, altitude or status-text subject */
    | Forwarded(event: MavParser.Event)
    | ParamsPublished(list: seq<ParamEntry>)
    | TransportClosed

  datatype Outcome = Outcome(link: Link, effects: seq<Effect>)

  // ----------------------------------------------------------- connecting

  /** `connect(port:)`: publish CONNECTING and start discovery; there is no state guard. */
  function Connect(l: Link, port: nat): (r: Outcome)
    ensures r.link.state == Connecting
    ensures r.link.failedDiscoveryCount == l.failedDiscoveryCount && r.link.paramList == l.paramList
    ensures r.effects == [Published(Connecting), StartDiscovery(port, DiscoveryTimeoutMs)]
  {
    Outcome(l.(state := Connecting), [Published(Connecting), StartDiscovery(port, DiscoveryTimeoutMs)])
  }

  /** What discovery reported: no drone, or its address and whether the socket could be set up. */
  datatype Discovery = NotFound | Found(ip: string, transportOk: bool)

  /** `connectToDrone(ip:port:)` */
  function ConnectToDrone(l: Link, ip: string, port: nat, ok: bool): (r: Outcome)
    ensures ok ==> r.link.state == l.state && r.link.timerActive && r.link.receiving && r.link.transportOpen
    ensures !ok ==> r.link == l.(state := Failed) && r.effects == [Published(Failed)]
  {
    if ok then
      Outcome(l.(timerActive := true, receiving := true, transportOpen := true),
              [TransportOpened(ip, port), StartReceiveLoop])
    else Outcome(l.(state := Failed), [Published(Failed)])
  }

  /** The discovery task's completion on the main actor. */
  function OnDiscovery(l: Link, port: nat, d: Discovery): (r: Outcome)
    ensures d.Found? ==> r == ConnectToDrone(l, d.ip, port, d.transportOk)
    ensures d.NotFound? && l.failedDiscoveryCount > MaxFailedDiscovery ==>
      r.link.state == Failed && r.link.failedDiscoveryCount == 0 && r.effects == [Published(Failed)]
    ensures d.NotFound? && l.failedDiscoveryCount <= MaxFailedDiscovery ==>
      && r.link.state == l.state && r.link.failedDiscoveryCount == l.failedDiscoveryCount + 1
      && r.effects == [RetryConnect(RetryDelay, DefaultPort)]
  {
    match d
    case Found(ip, ok) => ConnectToDrone(l, ip, port, ok)
    case NotFound =>
      if l.failedDiscoveryCount > MaxFailedDiscovery then
        Outcome(l.(state := Failed, failedDiscoveryCount := 0), [Published(Failed)])
      else
        Outcome(l.(failedDiscoveryCount := l.failedDiscoveryCount + 1), [RetryConnect(RetryDelay, DefaultPort)])
  }

  /** One connect attempt whose discovery finds nothing. */
  function FailedRound(l: Link): Link {
    OnDiscovery(Connect(l, DefaultPort).link, DefaultPort, NotFound).link
  }

  function FailedRounds(l: Link, n: nat): Link {
    if n == 0 then l else FailedRound(FailedRounds(l, n - 1))
  }

  /**
   * Starting from a zero counter, `n` failed rounds leave the counter at `n mod 7`; the
   * seventh, fourteenth, ... failure ends in FAILED, every other one leaves CONNECTING.
   */
  lemma {:induction false} FailedRoundsCount(l: Link, n: nat)
    requires l.failedDiscoveryCount == 0 && n > 0
    ensures FailedRounds(l, n).failedDiscoveryCount == n % (MaxFailedDiscovery + 2)
    ensures FailedRounds(l, n).state == if n % (MaxFailedDiscovery + 2) == 0 then Failed else Connecting
  {
    if n > 1 {
      FailedRoundsCount(l, n - 1);
    }
  }

  /** Seven straight failures from a fresh link end in FAILED; six leave it CONNECTING. */
  lemma SevenFailuresFail()
    ensures FailedRounds(Initial, 6).state == Connecting && FailedRounds(Initial, 6).failedDiscoveryCount == 6
    ensures FailedRounds(Initial, 7).state == Failed && FailedRounds(Initial, 7).failedDiscoveryCount == 0
  {
    FailedRoundsCount(Initial, 6);
    FailedRoundsCount(Initial, 7);
  }

  // ---------------------------------------------------------- disconnect

  /** The state `disconnect()` leaves behind. */
  predicate IsReset(l: Link) {
    && l.state == NotConnected && !l.timerActive && !l.receiving && !l.transportOpen
    && l.failedDiscoveryCount == 0 && l.missedHeartbeatCount == 0
    && l.lastHeartbeatReceived == None && l.lastHeartbeatSent == None && l.paramList == []
  }

  /** `disconnect()`: a no-op when NOT_CONNECTED, otherwise a full reset and socket close. */
  function Disconnect(l: Link): (r: Outcome)
    ensures l.state == NotConnected ==> r == Outcome(l, [])
    ensures l.state != NotConnected ==> IsReset(r.link) && r.effects == [Published(NotConnected), TransportClosed]
  {
    if l.state == NotConnected then Outcome(l, [])
    else
      Outcome(Link(NotConnected, 0, 0, None, None, false, false, false, []),
              [Published(NotConnected), TransportClosed])
  }

  lemma DisconnectIdempotent(l: Link)
    ensures Disconnect(Disconnect(l).link).link == Disconnect(l).link
    ensures l.state != NotConnected ==> Disconnect(Disconnect(l).link).effects == []
  {
  }

  // --------------------------------------------------------------- timer

  /** `checkConnectionHealth()` */
  function CheckHealth(l: Link, now: real): (r: Outcome)
    ensures l.state == Connecting ==>
      if l.missedHeartbeatCount + 1 > MaxMissedHeartbeat then IsReset(r.link)
      else r.link == l.(missedHeartbeatCount := l.missedHeartbeatCount + 1)
    ensures l.state == Connected ==>
      if l.lastHeartbeatReceived.Some? && now - l.lastHeartbeatReceived.value > HeartbeatTimeout
      then IsReset(r.link) else r.link == l
    ensures l.state == NotConnected || l.state == Failed ==> r.link == l.(timerActive := false) && r.effects == []
  {
    match l.state
    case Connecting =>
      var l1 := l.(missedHeartbeatCount := l.missedHeartbeatCount + 1);
      if l1.missedHeartbeatCount > MaxMissedHeartbeat then Disconnect(l1) else Outcome(l1, [])
    case Connected =>
      if l.lastHeartbeatReceived.Some? && now - l.lastHeartbeatReceived.value > HeartbeatTimeout
      then Disconnect(l) else Outcome(l, [])
    case NotConnected => Outcome(l.(timerActive := false), [])
    case Failed => Outcome(l.(timerActive := false), [])
  }

  /**
   * `sendHeartbeat()`: the frame goes out only if the socket is open and accepts it
   * (`delivered`); only then is `lastHeartbeatSent` updated.
   */
  function SendHeartbeat(l: Link, now: real, delivered: bool): (r: Outcome)
    ensures r.link == (if l.transportOpen && delivered then l.(lastHeartbeatSent := Some(now)) else l)
    ensures r.effects != [] <==> l.transportOpen && delivered
    ensures forall e :: e in r.effects ==> e.Sent? && e.frame.payload.HeartbeatOut?
  {
    match MavBuilder.BuildHeartbeat(MavBuilder.Buffer(SendBufferSize))
    case None => assert false; Outcome(l, [])
    case Some(frame) =>
      if l.transportOpen && delivered then Outcome(l.(lastHeartbeatSent := Some(now)), [Sent(frame)])
      else Outcome(l, [])
  }

  /** One firing of the 0.5 s timer: the health check, then a heartbeat in every case. */
  function Tick(l: Link, now: real, delivered: bool): (r: Outcome)
    ensures !l.timerActive ==> r == Outcome(l, [])
  {
    if !l.timerActive then Outcome(l, [])
    else
      var health := CheckHealth(l, now);
      var beat := SendHeartbeat(health.link, now, delivered);
      Outcome(beat.link, health.effects + beat.effects)
  }

  /** While CONNECTING, the eleventh heartbeat-free tick disconnects; earlier ones count. */
  lemma TickConnecting(l: Link, now: real, delivered: bool)
    requires l.timerActive && l.state == Connecting
    ensures var r := Tick(l, now, delivered).link;
      if l.missedHeartbeatCount >= MaxMissedHeartbeat
      then r.state == NotConnected && !r.timerActive && r.lastHeartbeatSent == None
      else r.state == Connecting && r.missedHeartbeatCount == l.missedHeartbeatCount + 1
  {
  }

  /** While CONNECTED, a tick disconnects iff a heartbeat was seen more than 10 s ago. */
  lemma TickConnected(l: Link, now: real, delivered: bool)
    requires l.timerActive && l.state == Connected
    ensures Tick(l, now, delivered).link.state == NotConnected <==>
      l.lastHeartbeatReceived.Some? && now - l.lastHeartbeatReceived.value > HeartbeatTimeout
    ensures Tick(l, now, delivered).link.state != NotConnected ==> Tick(l, now, delivered).link.state == Connected
  {
  }

  /** In NOT_CONNECTED or FAILED a tick only cancels the timer (and tries one heartbeat). */
  lemma TickIdle(l: Link, now: real, delivered: bool)
    requires l.timerActive && (l.state == NotConnected || l.state == Failed)
    ensures var r := Tick(l, now, delivered).link;
      r.state == l.state && !r.timerActive && r.paramList == l.paramList
      && r.missedHeartbeatCount == l.missedHeartbeatCount
  {
  }

  /** `k` timer ticks at the same instant with no heartbeat in between. */
  function Ticks(l: Link, k: nat, now: real): Link {
    if k == 0 then l else Tick(Ticks(l, k - 1, now), now, true).link
  }

  /** From a freshly opened link, ten silent ticks keep CONNECTING; the eleventh disconnects. */
  lemma {:induction false} SilentTicks(l: Link, k: nat, now: real)
    requires l.state == Connecting && l.timerActive && l.missedHeartbeatCount == 0
    requires k <= MaxMissedHeartbeat + 1
    ensures k <= MaxMissedHeartbeat ==>
      Ticks(l, k, now).state == Connecting && Ticks(l, k, now).missedHeartbeatCount == k && Ticks(l, k, now).timerActive
    ensures k == MaxMissedHeartbeat + 1 ==> Ticks(l, k, now).state == NotConnected
  {
    if k > 0 {
      SilentTicks(l, k - 1, now);
      TickConnecting(Ticks(l, k - 1, now), now, true);
    }
  }

  // ------------------------------------------------------------- inbound

  /**
   * `didReceiveHeartbeat(_:)`: while connecting, CONNECTED is published before the packet is
   * forwarded; in every state the time is recorded and the missed count reset.
   */
  function OnHeartbeat(l: Link, e: MavParser.Event, now: real): (r: Outcome)
    requires e.HeartbeatEvent?
    ensures r.link.state == if l.state == Connecting then Connected else l.state
    ensures r.link.missedHeartbeatCount == 0 && r.link.lastHeartbeatReceived == Some(now)
    ensures r.link == l.(state := r.link.state, lastHeartbeatReceived := Some(now), missedHeartbeatCount := 0)
    ensures r.effects == (if l.state == Connecting then [Published(Connected)] else []) + [Forwarded(e)]
  {
    if l.state == Connecting then
      Outcome(l.(state := Connected, lastHeartbeatReceived := Some(now), missedHeartbeatCount := 0),
              [Published(Connected), Forwarded(e)])
    else
      Outcome(l.(lastHeartbeatReceived := Some(now), missedHeartbeatCount := 0), [Forwarded(e)])
  }

  /** `didReceiveParamValue(_:)`: append, then publish the whole list. */
  function OnParamValue(l: Link, id: string, value: real): (r: Outcome)
    ensures r.link == l.(paramList := l.paramList + [ParamEntry(id, value)])
    ensures r.effects == [ParamsPublished(r.link.paramList)]
  {
    var list := l.paramList + [ParamEntry(id, value)];
    Outcome(l.(paramList := list), [ParamsPublished(list)])
  }

  /** The bridge delegate: route one parser event. */
  function Inbound(l: Link, e: MavParser.Event, now: real): (r: Outcome)
    ensures !e.HeartbeatEvent? && !e.ParamValueEvent? ==> r == Outcome(l, [Forwarded(e)])
    ensures e.ParamValueEvent? ==> r.link.paramList == l.paramList + [ParamEntry(e.paramId, e.value)]
    ensures e.HeartbeatEvent? ==> r.link.lastHeartbeatReceived == Some(now)
    ensures r.link.failedDiscoveryCount == l.failedDiscoveryCount && r.link.transportOpen == l.transportOpen
  {
    match e
    case HeartbeatEvent(_, _, _, _, _) => OnHeartbeat(l, e, now)
    case ParamValueEvent(id, value) => OnParamValue(l, id, value)
    case _ => Outcome(l, [Forwarded(e)])
  }

  // ------------------------------------------------------------- actions

  datatype Action =
    | Arm
    | Disarm
    | ManualControl(roll: int16, pitch: int16, yaw: int16, throttle: int16)
    | CalibrateImu
    | CalibrateBaro
    | Takeoff
    | RequestParamList
    | SetParam(id: seq<uint8>, value: real)

  /** The builder each `action*` method hands to `sendAction`, on a 280-byte buffer. */
  function BuildAction(a: Action): (r: Option<MavBuilder.Frame>)
    ensures r.Some?
  {
    var buffer := MavBuilder.Buffer(SendBufferSize);
    match a
    case Arm => MavBuilder.BuildArmDisarm(buffer, true)
    case Disarm => MavBuilder.BuildArmDisarm(buffer, false)
    case ManualControl(roll, pitch, yaw, throttle) => MavBuilder.BuildManualControl(buffer, roll, pitch, yaw, throttle)
    case CalibrateImu => MavBuilder.BuildCalibrateImu(buffer)
    case CalibrateBaro => MavBuilder.BuildCalibrateBaro(buffer)
    case Takeoff => MavBuilder.BuildTakeoff(buffer)
    case RequestParamList => MavBuilder.BuildParamList(buffer)
    case SetParam(id, value) => MavBuilder.BuildSetParam(buffer, id, value)
  }

  /**
   * `action*` followed by `sendAction`: the frame is sent iff the builder produced one and
   * the socket accepted it. The connection state is not consulted. A parameter-list request
   * empties `paramList` first.
   */
  function SendAction(l: Link, a: Action, delivered: bool): (r: Outcome)
    ensures r.link == if a.RequestParamList? then l.(paramList := []) else l
    ensures r.effects != [] <==> l.transportOpen && delivered
    ensures forall e :: e in r.effects ==> e == Sent(BuildAction(a).value)
  {
    var l1 := if a.RequestParamList? then l.(paramList := []) else l;
    match BuildAction(a)
    case None => Outcome(l1, [])
    case Some(frame) => if l1.transportOpen && delivered then Outcome(l1, [Sent(frame)]) else Outcome(l1, [])
  }

  /** `removeParamList()` */
  function RemoveParamList(l: Link): (r: Outcome)
    ensures r.link.paramList == [] && r.link.state == l.state && r.effects == []
  {
    Outcome(l.(paramList := []), [])
  }

  // ---------------------------------------------------- parameter history

  /** The events that touch `paramList`. */
  datatype ParamInput = ValueIn(id: string, value: real) | Request | Remove

  function ApplyParam(l: Link, p: ParamInput): Link {
    match p
    case ValueIn(id, value) => Inbound(l, MavParser.ParamValueEvent(id, value), 0.0).link
    case Request => SendAction(l, RequestParamList, true).link
    case Remove => RemoveParamList(l).link
  }

  function ApplyParams(l: Link, ps: seq<ParamInput>): Link
    decreases |ps|
  {
    if ps == [] then l else ApplyParam(ApplyParams(l, ps[..|ps| - 1]), ps[|ps| - 1])
  }

  /** A received value is appended to the list; a request or a removal empties it. */
  lemma ParamStep(l: Link, p: ParamInput)
    ensures ApplyParam(l, p).paramList ==
      if p.ValueIn? then l.paramList + [ParamEntry(p.id, p.value)] else []
  {
  }

  /** Index just past the last clearing input, or 0 when there is none. */
  function ClearedAt(ps: seq<ParamInput>): (k: nat)
    ensures k <= |ps|
    ensures forall i :: k <= i < |ps| ==> ps[i].ValueIn?
    ensures k > 0 ==> !ps[k - 1].ValueIn?
  {
    if ps == [] then 0
    else if ps[|ps| - 1].ValueIn? then ClearedAt(ps[..|ps| - 1])
    else |ps|
  }

  function EntryOf(p: ParamInput): Option<ParamEntry> {
    if p.ValueIn? then Some(ParamEntry(p.id, p.value)) else None
  }

  /** The list alone, as the inputs change it. */
  function ListAfter(list: seq<ParamEntry>, ps: seq<ParamInput>): seq<ParamEntry>
    decreases |ps|
  {
    if ps == [] then list
    else
      var p := ps[|ps| - 1];
      var before := ListAfter(list, ps[..|ps| - 1]);
      if p.ValueIn? then before + [ParamEntry(p.id, p.value)] else []
  }

  /** The link's list follows `ListAfter`: nothing else in the link feeds into it. */
  lemma {:induction false} ParamsFollowList(l: Link, ps: seq<ParamInput>)
    ensures ApplyParams(l, ps).paramList == ListAfter(l.paramList, ps)
    decreases |ps|
  {
    if ps != [] {
      ParamsFollowList(l, ps[..|ps| - 1]);
      ParamStep(ApplyParams(l, ps[..|ps| - 1]), ps[|ps| - 1]);
    }
  }

  /**
   * The list is exactly the values received since the last request or removal, in order
   * (preceded by the old list when nothing cleared it).
   */
  lemma ParamHistory(l: Link, ps: seq<ParamInput>)
    ensures ApplyParams(l, ps).paramList ==
      (if ClearedAt(ps) == 0 then l.paramList else []) + CompactMap(ps[ClearedAt(ps)..], EntryOf)
  {
    ParamsFollowList(l, ps);
    ListHistory(l.paramList, ps);
  }

  lemma {:induction false} ListHistory(list: seq<ParamEntry>, ps: seq<ParamInput>)
    ensures ListAfter(list, ps) ==
      (if ClearedAt(ps) == 0 then list else []) + CompactMap(ps[ClearedAt(ps)..], EntryOf)
    decreases |ps|
  {
    if ps != [] {
      var init := ps[..|ps| - 1];
      var p := ps[|ps| - 1];
      ListHistory(list, init);
      if p.ValueIn? {
        assert ClearedAt(ps) == ClearedAt(init);
        var k := ClearedAt(init);
        assert ps[k..] == init[k..] + [p];
        CompactMapAppend(init[k..], [p], EntryOf);
        assert CompactMap([p], EntryOf) == [ParamEntry(p.id, p.value)];
      } else {
        assert ClearedAt(ps) == |ps|;
        assert CompactMap(ps[|ps|..], EntryOf) == [];
      }
    }
  }

  /** The list published after each PARAM_VALUE is the list just built. */
  lemma PublishedIsHistory(l: Link, id: string, value: real)
    ensures Inbound(l, MavParser.ParamValueEvent(id, value), 0.0).effects ==
      [ParamsPublished(l.paramList + [ParamEntry(id, value)])]
  {
  }

  // -------------------------------------------------------- receive loop

  /**
   * One `CF_gcs_udp_receive` result: `ret` > 0 bytes were read into `buffer`, 0 for nothing
   * (or a datagram from another sender), -1 for an error.
   */
  datatype ReadResult = ReadResult(ret: int, buffer: seq<uint8>)

  /** `recvfrom` never reports more bytes than the buffer holds. */
  predicate ReadsFit(rs: seq<ReadResult>) {
    forall i :: 0 <= i < |rs| ==> rs[i].ret <= |rs[i].buffer|
  }

  /** Failed reads at the end of `rs`, counted back to the last non-negative one. */
  function TrailingErrors(rs: seq<ReadResult>): nat {
    if rs == [] || rs[|rs| - 1].ret >= 0 then 0 else TrailingErrors(rs[..|rs| - 1]) + 1
  }

  /** The chunks handed to the parser: the bytes of the positive reads, in order. */
  function PositiveChunks(rs: seq<ReadResult>): seq<seq<uint8>>
    requires ReadsFit(rs)
  {
    if rs == [] then []
    else
      var r := rs[|rs| - 1];
      PositiveChunks(rs[..|rs| - 1]) + (if r.ret > 0 then [r.buffer[..r.ret]] else [])
  }

  function Flatten<T>(xss: seq<seq<T>>): seq<T> {
    if xss == [] then [] else Flatten(xss[..|xss| - 1]) + xss[|xss| - 1]
  }

  /** One more read: its bytes extend the parser input, and it resets or extends the error run. */
  lemma ReceiveStep(before: seq<ReadResult>, r: ReadResult)
    requires ReadsFit(before + [r])
    ensures ReadsFit(before)
    ensures Flatten(PositiveChunks(before + [r])) ==
      Flatten(PositiveChunks(before)) + (if r.ret > 0 then r.buffer[..r.ret] else [])
    ensures TrailingErrors(before + [r]) == if r.ret >= 0 then 0 else TrailingErrors(before) + 1
  {
    var rs := before + [r];
    assert rs[|before|] == r;
    assert rs[..|rs| - 1] == before;
    assert forall i :: 0 <= i < |before| ==> before[i] == rs[i];
    var cs := PositiveChunks(before);
    if r.ret > 0 {
      assert PositiveChunks(rs) == cs + [r.buffer[..r.ret]];
      assert (cs + [r.buffer[..r.ret]])[..|cs|] == cs;
    } else {
      assert PositiveChunks(rs) == cs + [];
      assert cs + [] == cs;
    }
  }

  /** The longest run of failed reads ending anywhere in `rs`. */
  function LongestRun(rs: seq<ReadResult>): nat {
    if rs == [] then 0
    else
      var earlier := LongestRun(rs[..|rs| - 1]);
      if earlier < TrailingErrors(rs) then TrailingErrors(rs) else earlier
  }

  /** Every prefix's error run is bounded by the longest run. */
  lemma {:induction false} LongestRunBounds(rs: seq<ReadResult>, k: nat)
    requires k <= |rs|
    ensures TrailingErrors(rs[..k]) <= LongestRun(rs)
    decreases |rs|
  {
    if k < |rs| {
      LongestRunBounds(rs[..|rs| - 1], k);
      assert rs[..|rs| - 1][..k] == rs[..k];
    } else {
      assert rs[..k] == rs;
    }
  }

  lemma PrefixRunsBounded(rs: seq<ReadResult>, n: nat)
    requires n <= |rs| && LongestRun(rs[..n]) <= MaxConsecutiveErrors
    ensures forall k :: 0 <= k <= n ==> TrailingErrors(rs[..k]) <= MaxConsecutiveErrors
  {
    forall k | 0 <= k <= n ensures TrailingErrors(rs[..k]) <= MaxConsecutiveErrors {
      LongestRunBounds(rs[..n], k);
      assert rs[..n][..k] == rs[..k];
    }
  }

  /** What the receive task carries from one read to the next. */
  datatype Receiver<S> = Receiver(st: S, events: seq<MavParser.Event>, errors: nat)

  /** The receiver after the reads `rs`: the framer fed their bytes, the current error run. */
  ghost predicate Tracks<S>(step: MavParser.Framer<S>, st0: S, rs: seq<ReadResult>, rx: Receiver<S>) {
    && ReadsFit(rs)
    && rx.errors == TrailingErrors(rs)
    && (rx.st, rx.events) == MavParser.Process(step, MavParser.AllCallbacks, st0, Flatten(PositiveChunks(rs)))
  }

  /** One iteration of the receive loop: parse a positive read, count a failed one. */
  function Receive<S>(step: MavParser.Framer<S>, rx: Receiver<S>, r: ReadResult): Receiver<S>
    requires r.ret <= |r.buffer|
  {
    if r.ret > 0 then
      var next := MavParser.Process(step, MavParser.AllCallbacks, rx.st, r.buffer[..r.ret]);
      Receiver(next.0, rx.events + next.1, 0)
    else if r.ret == 0 then rx.(errors := 0)
    else rx.(errors := rx.errors + 1)
  }

  /** `Receive` keeps the receiver in step with the reads made so far. */
  lemma ReceiveTracks<S>(step: MavParser.Framer<S>, st0: S, before: seq<ReadResult>, r: ReadResult, rx: Receiver<S>)
    requires Tracks(step, st0, before, rx) && r.ret <= |r.buffer|
    ensures Tracks(step, st0, before + [r], Receive(step, rx, r))
  {
    assert ReadsFit(before + [r]) by {
      assert forall i :: 0 <= i < |before| ==> (before + [r])[i] == before[i];
    }
    ReceiveStep(before, r);
    var input := Flatten(PositiveChunks(before));
    if r.ret > 0 {
      var chunk := r.buffer[..r.ret];
      MavParser.ProcessSplit(step, MavParser.AllCallbacks, st0, input, chunk);
      var next := MavParser.Process(step, MavParser.AllCallbacks, rx.st, chunk);
      assert MavParser.Process(step, MavParser.AllCallbacks, st0, input + chunk) == (next.0, rx.events + next.1);
    } else {
      assert input + [] == input;
    }
  }

  /**
   * The `startReceiving` loop over the reads it performs (the sequence ends where its `Task`
   * is cancelled or `isReceiving` is cleared). It stops early at the 101st consecutive
   * failed read. Returns the framer state, the events dispatched, how many results were made
   * and whether it gave up on errors.
   */
  method ReceiveLoop<S>(step: MavParser.Framer<S>, st0: S, results: seq<ReadResult>)
    returns (st: S, events: seq<MavParser.Event>, consumed: nat, gaveUp: bool)
    requires ReadsFit(results)
    ensures consumed <= |results|
    ensures forall k :: 0 <= k < consumed ==> TrailingErrors(results[..k]) <= MaxConsecutiveErrors
    ensures gaveUp ==> TrailingErrors(results[..consumed]) == MaxConsecutiveErrors + 1
    ensures !gaveUp ==> consumed == |results| && TrailingErrors(results) <= MaxConsecutiveErrors
    ensures (st, events) ==
      MavParser.Process(step, MavParser.AllCallbacks, st0, Flatten(PositiveChunks(results[..consumed])))
  {
    var rx := Receiver(st0, [], 0);
    consumed, gaveUp := 0, false;
    while consumed < |results| && !gaveUp
      invariant 0 <= consumed <= |results|
      invariant Tracks(step, st0, results[..consumed], rx)
      invariant gaveUp <==> rx.errors > MaxConsecutiveErrors
      invariant rx.errors <= MaxConsecutiveErrors + 1
      invariant !gaveUp ==> LongestRun(results[..consumed]) <= MaxConsecutiveErrors
      invariant gaveUp ==> consumed > 0 && LongestRun(results[..consumed - 1]) <= MaxConsecutiveErrors
      decreases |results| - consumed
    {
      var r := results[consumed];
      var before := results[..consumed];
      assert results[..consumed + 1] == before + [r];
      assert (before + [r])[..|before|] == before;
      ReceiveTracks(step, st0, before, r, rx);
      rx := Receive(step, rx, r);
      gaveUp := rx.errors > MaxConsecutiveErrors;
      consumed := consumed + 1;
    }
    PrefixRunsBounded(results, if gaveUp then consumed - 1 else consumed);
    if !gaveUp {
      assert results[..consumed] == results;
    }
    st, events := rx.st, rx.events;
  }
}
