/**
 * Gamepad shaping in the home view model: the stick deadband, the two throttle styles
 * (sticky and direct), the conversion of stick values to MANUAL_CONTROL's `Int16` axes, and
 * the validation of the "max manual throttle" text field. `Float` is modelled as `real`.
 */
module ControlShaping {
  import opened Wrappers
  import opened MavLink

  /** Stick travel around the centre that reads as zero. */
  const Deadband: real := 0.10
  /** Throttle change per stick event in sticky mode, per unit of shaped stick value. */
  const StickyStep: real := 0.03
  /** `maxManualThrottle` before the user changes it. */
  const DefaultMaxManualThrottle: real := 0.55
  /** Stick values in [-1, 1] are sent as thousandths. */
  const AxisScale: real := 1000.0

  function Abs(x: real): real {
    if x < 0.0 then -x else x
  }

  function Sign(x: real): real {
    if x > 0.0 then 1.0 else -1.0
  }

  /**
   * `applyDeadband`: zero inside the deadband, then a linear ramp from the deadband edge
   * (value 0) to full deflection (value `maxThrottle`), with the stick's sign. Every axis is
   * scaled by `maxManualThrottle`, not only the throttle.
   */
  function ApplyDeadband(value: real, maxThrottle: real): (r: real)
    ensures Abs(value) <= Deadband ==> r == 0.0
    ensures Abs(value) > Deadband && maxThrottle != 0.0 ==> r != 0.0
    ensures maxThrottle >= 0.0 ==> (value > 0.0 ==> r >= 0.0) && (value < 0.0 ==> r <= 0.0)
    ensures Abs(value) <= 1.0 ==> Abs(r) <= Abs(maxThrottle)
  {
    if Abs(value) <= Deadband then 0.0
    else
      var scaled := (Abs(value) - Deadband) / (1.0 - Deadband);
      assert 0.0 < scaled;
      assert Abs(value) <= 1.0 ==> scaled <= 1.0;
      ScaledBound(scaled, maxThrottle);
      assert Abs(Sign(value) * scaled * maxThrottle) == Abs(scaled * maxThrottle);
      Sign(value) * scaled * maxThrottle
  }

  lemma ScaledBound(scaled: real, m: real)
    requires 0.0 < scaled
    ensures 1.0 * scaled * m == scaled * m && -1.0 * scaled * m == -(scaled * m)
    ensures Abs(scaled * m) == scaled * Abs(m)
    ensures m >= 0.0 ==> scaled * m >= 0.0
    ensures scaled <= 1.0 ==> scaled * Abs(m) <= Abs(m)
    ensures m != 0.0 ==> scaled * m != 0.0
  {
  }

  /** Full deflection gives exactly plus or minus the maximum. */
  lemma DeadbandEndpoints(maxThrottle: real)
    ensures ApplyDeadband(1.0, maxThrottle) == maxThrottle
    ensures ApplyDeadband(-1.0, maxThrottle) == -maxThrottle
  {
  }

  /** The shaping is odd: mirrored stick positions give opposite values. */
  lemma DeadbandOdd(value: real, maxThrottle: real)
    ensures ApplyDeadband(-value, maxThrottle) == -ApplyDeadband(value, maxThrottle)
  {
    if Abs(value) > Deadband {
      var scaled := (Abs(value) - Deadband) / (1.0 - Deadband);
      assert Abs(-value) == Abs(value);
      assert Sign(-value) == -Sign(value);
      assert Sign(-value) * scaled * maxThrottle == -(Sign(value) * scaled * maxThrottle);
    }
  }

  /** With a non-negative maximum, more stick gives at least as much output. */
  lemma {:induction false} DeadbandMonotone(a: real, b: real, maxThrottle: real)
    requires a <= b && maxThrottle >= 0.0
    ensures ApplyDeadband(a, maxThrottle) <= ApplyDeadband(b, maxThrottle)
  {
    if a > Deadband {
      var sa := (a - Deadband) / (1.0 - Deadband);
      var sb := (b - Deadband) / (1.0 - Deadband);
      assert sa <= sb;
      calc {
        ApplyDeadband(a, maxThrottle);
      == { RampUp(a, maxThrottle); }
        sa * maxThrottle;
      <= { MulMonotone(sa, sb, maxThrottle); }
        sb * maxThrottle;
      == { RampUp(b, maxThrottle); }
        ApplyDeadband(b, maxThrottle);
      }
    } else if b < -Deadband {
      var sa := (-a - Deadband) / (1.0 - Deadband);
      var sb := (-b - Deadband) / (1.0 - Deadband);
      assert sb <= sa;
      calc {
        ApplyDeadband(a, maxThrottle);
      == { RampDown(a, maxThrottle); }
        -(sa * maxThrottle);
      <= { MulMonotone(sb, sa, maxThrottle); }
        -(sb * maxThrottle);
      == { RampDown(b, maxThrottle); }
        ApplyDeadband(b, maxThrottle);
      }
    } else {
      assert ApplyDeadband(a, maxThrottle) <= 0.0 <= ApplyDeadband(b, maxThrottle);
    }
  }

  /** Above the deadband the output is the positive ramp times the maximum. */
  lemma RampUp(v: real, m: real)
    requires v > Deadband
    ensures ApplyDeadband(v, m) == (v - Deadband) / (1.0 - Deadband) * m
  {
    var scaled := (v - Deadband) / (1.0 - Deadband);
    assert Abs(v) == v && Sign(v) == 1.0;
    ScaledBound(scaled, m);
  }

  /** Below the deadband the output is the negated ramp times the maximum. */
  lemma RampDown(v: real, m: real)
    requires v < -Deadband
    ensures ApplyDeadband(v, m) == -((-v - Deadband) / (1.0 - Deadband) * m)
  {
    var scaled := (-v - Deadband) / (1.0 - Deadband);
    assert Abs(v) == -v && Sign(v) == -1.0;
    ScaledBound(scaled, m);
  }

  lemma MulMonotone(x: real, y: real, m: real)
    requires x <= y && m >= 0.0
    ensures x * m <= y * m
  {
  }

  /**
   * Sticky throttle: a pushed stick raises the throttle by a step proportional to the
   * shaped value, up to the maximum; anything else lowers it, never below zero.
   */
  function StickyThrottle(throttle: real, shaped: real, maxThrottle: real): (r: real)
    ensures shaped > 0.0 ==> r <= maxThrottle
    ensures shaped <= 0.0 ==> r >= 0.0
    ensures throttle >= 0.0 && maxThrottle >= 0.0 ==> r >= 0.0
    ensures throttle >= 0.0 && shaped <= 0.0 ==> r <= throttle
    ensures shaped > 0.0 && throttle <= maxThrottle ==> r >= throttle
  {
    if shaped > 0.0 then Min(maxThrottle, throttle + shaped * StickyStep)
    else Max(throttle + shaped * StickyStep, 0.0)
  }

  function Min(a: real, b: real): real {
    if a <= b then a else b
  }

  function Max(a: real, b: real): real {
    if a >= b then a else b
  }

  /** Direct throttle: the shaped value itself, except that a pulled stick changes nothing. */
  function DirectThrottle(throttle: real, shaped: real): (r: real)
    ensures shaped < 0.0 ==> r == throttle
    ensures shaped >= 0.0 ==> r == shaped
  {
    if shaped >= 0.0 then shaped else throttle
  }

  /** The right stick's handler: the throttle after one vertical stick event. */
  function RightStick(throttle: real, y: real, maxThrottle: real, sticky: bool): (r: real)
    ensures sticky ==> r == StickyThrottle(throttle, ApplyDeadband(y, maxThrottle), maxThrottle)
    ensures !sticky ==> r == DirectThrottle(throttle, ApplyDeadband(y, maxThrottle))
  {
    var shaped := ApplyDeadband(y, maxThrottle);
    if sticky then StickyThrottle(throttle, shaped, maxThrottle) else DirectThrottle(throttle, shaped)
  }

  /** A stick reading the controller can report. */
  predicate StickRange(y: real) {
    -1.0 <= y <= 1.0
  }

  /** A maximum the corrected field accepts. */
  predicate MaxInRange(maxThrottle: real) {
    0.0 <= maxThrottle <= 1.0
  }

  /** A maximum the field as written accepts: negative ones too. */
  predicate MaxAcceptedAsWritten(maxThrottle: real) {
    -1.0 <= maxThrottle <= 1.0
  }

  /** With an accepted maximum, one stick event keeps the throttle within [0, maximum]. */
  lemma RightStickInRange(throttle: real, y: real, maxThrottle: real, sticky: bool)
    requires MaxInRange(maxThrottle) && StickRange(y) && 0.0 <= throttle <= maxThrottle
    ensures 0.0 <= RightStick(throttle, y, maxThrottle, sticky) <= maxThrottle
  {
    var shaped := ApplyDeadband(y, maxThrottle);
    assert Abs(shaped) <= maxThrottle;
  }

  /**
   * With any maximum the field as written accepts, one stick event keeps the throttle within
   * [-1, 1]: sticky mode caps it at the maximum or floors it at zero, and direct mode takes
   * the shaped value, which is no larger than the maximum in magnitude.
   */
  lemma RightStickStaysInStickRange(throttle: real, y: real, maxThrottle: real, sticky: bool)
    requires MaxAcceptedAsWritten(maxThrottle) && StickRange(y) && StickRange(throttle)
    ensures StickRange(RightStick(throttle, y, maxThrottle, sticky))
  {
    var shaped := ApplyDeadband(y, maxThrottle);
    assert Abs(shaped) <= Abs(maxThrottle) <= 1.0;
    if sticky && shaped > 0.0 {
      assert throttle + shaped * StickyStep >= -1.0;
    }
  }

  /** With a non-negative maximum, pulling the stick down never raises the throttle. */
  lemma StickDownNeverRaises(throttle: real, y: real, maxThrottle: real, sticky: bool)
    requires maxThrottle >= 0.0 && throttle >= 0.0 && y <= 0.0
    ensures RightStick(throttle, y, maxThrottle, sticky) <= throttle
  {
  }

  /** The throttle after a sequence of right-stick events, the maximum held fixed. */
  function ThrottleTrace(throttle: real, ys: seq<real>, maxThrottle: real, sticky: bool): real
    decreases |ys|
  {
    if ys == [] then throttle
    else ThrottleTrace(RightStick(throttle, ys[0], maxThrottle, sticky), ys[1..], maxThrottle, sticky)
  }

  /** Over any sequence of stick events the throttle never leaves [0, maximum]. */
  lemma {:induction false} ThrottleTraceInRange(throttle: real, ys: seq<real>, maxThrottle: real, sticky: bool)
    requires MaxInRange(maxThrottle) && 0.0 <= throttle <= maxThrottle
    requires forall i :: 0 <= i < |ys| ==> StickRange(ys[i])
    ensures 0.0 <= ThrottleTrace(throttle, ys, maxThrottle, sticky) <= maxThrottle
    decreases |ys|
  {
    if ys != [] {
      RightStickInRange(throttle, ys[0], maxThrottle, sticky);
      ThrottleTraceInRange(RightStick(throttle, ys[0], maxThrottle, sticky), ys[1..], maxThrottle, sticky);
    }
  }

  // ------------------------------------------------------------ Int16 axes

  /** Swift's conversion of a finite `Float` to an integer: rounds toward zero. */
  function TowardZero(x: real): int {
    if x >= 0.0 then x.Floor else -((-x).Floor)
  }

  /** `Int16(x)`: `None` where Swift traps because the truncated value does not fit. */
  function ToInt16(x: real): (r: Option<int16>)
    ensures r.None? <==> x <= -32769.0 || x >= 32768.0
    ensures r.Some? ==> Abs(r.value as real) <= Abs(x) < Abs(r.value as real) + 1.0
    ensures r.Some? ==> (x >= 0.0 ==> r.value >= 0) && (x <= 0.0 ==> r.value <= 0)
  {
    var t := TowardZero(x);
    if -0x8000 <= t < 0x8000 then Some(t as int16) else None
  }

  /** `Int16(input * 1000.0)` for one manual-control axis. */
  function AxisValue(input: real): Option<int16> {
    ToInt16(input * AxisScale)
  }

  /** A stick value within [-1, 1] converts without trapping, to within [-1000, 1000]. */
  lemma AxisValueFits(input: real)
    requires -1.0 <= input <= 1.0
    ensures AxisValue(input).Some?
    ensures -1000 <= AxisValue(input).value <= 1000
    ensures input == 1.0 ==> AxisValue(input).value == 1000
  {
  }

  // --------------------------------------------------- max manual throttle

  /** The field's outcome: the new maximum, or the old one printed back into the field. */
  datatype MaxUpdate = Accepted(value: real) | Reverted(text: string)

  /**
   * `updateMaxManualThrottle` as written: the test `abs(value) >= 0.0` holds for every non-NaN
   * value, so any number in [-1, 1] is accepted, negative ones included.
   */
  function UpdateMaxManualThrottleAsWritten(text: string, current: real, pf: string -> Option<real>, show: real -> string): (r: MaxUpdate)
    ensures r.Accepted? <==> pf(text).Some? && -1.0 <= pf(text).value <= 1.0
    ensures r.Accepted? ==> r.value == pf(text).value
    ensures r.Reverted? ==> r.text == show(current)
  {
    match pf(text)
    case Some(v) => if Abs(v) >= 0.0 && Abs(v) <= 1.0 then Accepted(v) else Reverted(show(current))
    case None => Reverted(show(current))
  }

  /** `updateMaxManualThrottle` as evidently intended: only a maximum within [0, 1]. */
  function UpdateMaxManualThrottle(text: string, current: real, pf: string -> Option<real>, show: real -> string): (r: MaxUpdate)
    ensures r.Accepted? <==> pf(text).Some? && MaxInRange(pf(text).value)
    ensures r.Accepted? ==> r.value == pf(text).value
    ensures r.Reverted? ==> r.text == show(current)
  {
    match pf(text)
    case Some(v) => if 0.0 <= v <= 1.0 then Accepted(v) else Reverted(show(current))
    case None => Reverted(show(current))
  }

  /** The maximum after an update: the accepted value, or the current one. */
  function NewMax(u: MaxUpdate, current: real): real {
    match u
    case Accepted(v) => v
    case Reverted(_) => current
  }

  /** The field as written keeps the maximum within [-1, 1], whatever the user types. */
  lemma UpdateAsWrittenKeepsMaxAccepted(text: string, current: real, pf: string -> Option<real>, show: real -> string)
    requires MaxAcceptedAsWritten(current)
    ensures MaxAcceptedAsWritten(NewMax(UpdateMaxManualThrottleAsWritten(text, current, pf, show), current))
  {
  }

  /** The corrected field keeps the maximum in range, whatever the user types. */
  lemma UpdateKeepsMaxInRange(text: string, current: real, pf: string -> Option<real>, show: real -> string)
    requires MaxInRange(current)
    ensures MaxInRange(NewMax(UpdateMaxManualThrottle(text, current, pf, show), current))
  {
  }

  /** Both versions agree on every non-negative entry. */
  lemma UpdateAgreesOnNonNegative(text: string, current: real, pf: string -> Option<real>, show: real -> string)
    requires pf(text).Some? ==> pf(text).value >= 0.0
    ensures UpdateMaxManualThrottle(text, current, pf, show) ==
      UpdateMaxManualThrottleAsWritten(text, current, pf, show)
  {
  }

  /**
   * As written, typing `-1` is accepted, and then in direct mode pulling the throttle stick
   * fully down commands full throttle (axis value 1000).
   */
  lemma NegativeMaxPullDownFullThrottle(pf: string -> Option<real>, show: real -> string)
    requires pf("-1") == Some(-1.0)
    ensures UpdateMaxManualThrottleAsWritten("-1", DefaultMaxManualThrottle, pf, show) == Accepted(-1.0)
    ensures RightStick(0.0, -1.0, -1.0, false) == 1.0
    ensures AxisValue(RightStick(0.0, -1.0, -1.0, false)) == Some(1000)
  {
    DeadbandEndpoints(-1.0);
  }

  /** As written, in sticky mode the same maximum drives the throttle negative. */
  lemma NegativeMaxStickyNegativeThrottle()
    ensures RightStick(0.0, -1.0, -1.0, true) == -1.0
  {
    DeadbandEndpoints(-1.0);
  }
}
