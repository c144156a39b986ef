/**
 * The STATUSTEXT sub-protocol the flight firmware uses to stream debug telemetry:
 *
 *   DBG:<m1>,<m2>,<m3>,<m4>|<roll>,<pitch>,<yaw>|<throttle>     motor PWM, PID outputs, throttle
 *   TARGET:<roll>,<pitch>,<yaw>                                 target attitude
 *   LOOPTIME:<avg>,<current>                                    control-loop timing (spaces ignored)
 *
 * Anything else is plain text for the message log. `Route` decides the branch and decodes
 * the records exactly as the view model's status-text sink does; the `Format*` functions
 * are the sender's side, and the round-trip lemmas connect the two. `Float(String)` is a
 * parameter (`pf`), since its grammar is not modelled.
 */
module StatusText {
  import opened Wrappers
  import opened Text

  type FloatParser = string -> Option<real>

  datatype Motors = Motors(m1: int, m2: int, m3: int, m4: int)
  datatype Angles = Angles(roll: real, pitch: real, yaw: real)
  datatype LoopTimes = LoopTimes(avg: int, current: int)

  /** The branch a status text takes and the records it yields. */
  datatype Routed =
    | Debug(motors: Option<Motors>, pid: Option<Angles>, throttle: Option<real>)
    | Target(target: Option<Angles>)
    | LoopTime(loopTime: Option<LoopTimes>)
    | Plain(text: string)

  const DebugTag: string := "DBG:"
  const TargetTag: string := "TARGET:"
  const LoopTimeTag: string := "LOOPTIME:"

  /** `.split(separator: ",").compactMap { Int($0) }` */
  function Ints(field: string): seq<int> {
    CompactMap(Split(field, ','), ParseInt)
  }

  /** `.split(separator: ",").compactMap { Float($0) }` */
  function Floats(field: string, pf: FloatParser): seq<real> {
    CompactMap(Split(field, ','), pf)
  }

  function MotorsOf(values: seq<int>): Option<Motors> {
    if |values| >= 4 then Some(Motors(values[0], values[1], values[2], values[3])) else None
  }

  function AnglesOf(values: seq<real>): Option<Angles> {
    if |values| >= 3 then Some(Angles(values[0], values[1], values[2])) else None
  }

  /** The three `DBG:` segments decoded independently of one another. */
  function DecodeSegments(segments: seq<string>, pf: FloatParser): Routed
    requires |segments| >= 3
  {
    Debug(MotorsOf(Ints(segments[0])), AnglesOf(Floats(segments[1], pf)), pf(segments[2]))
  }

  /** The payload of a `DBG:` text split on `|`, empty segments dropped. */
  function DebugSegments(text: string): seq<string> {
    Split(RemoveOccurrences(text, DebugTag), '|')
  }

  /** The status-text sink's decision: first matching prefix wins, in the order DBG, TARGET, LOOPTIME. */
  function Route(text: string, pf: FloatParser): (r: Routed)
    ensures r.Debug? <==> HasPrefix(text, DebugTag)
    ensures r.Target? <==> !HasPrefix(text, DebugTag) && HasPrefix(text, TargetTag)
    ensures r.LoopTime? <==>
      !HasPrefix(text, DebugTag) && !HasPrefix(text, TargetTag) && HasPrefix(text, LoopTimeTag)
    ensures r.Plain? ==> r.text == text
    ensures r.Debug? && |DebugSegments(text)| < 3 ==> r == Debug(None, None, None)
    ensures r.Target? ==> (r.target.Some? <==> |Floats(RemoveOccurrences(text, TargetTag), pf)| >= 3)
    ensures r.Debug? && r.motors.Some? ==>
      exists k :: 0 <= k < |DebugSegments(text)| && |Ints(DebugSegments(text)[k])| >= 4
  {
    if HasPrefix(text, DebugTag) then
      var segments := DebugSegments(text);
      if |segments| < 3 then Debug(None, None, None) else DecodeSegments(segments, pf)
    else if HasPrefix(text, TargetTag) then
      Target(AnglesOf(Floats(RemoveOccurrences(text, TargetTag), pf)))
    else if HasPrefix(text, LoopTimeTag) then
      var values := Ints(RemoveOccurrences(RemoveOccurrences(text, LoopTimeTag), " "));
      LoopTime(if |values| >= 2 then Some(LoopTimes(values[0], values[1])) else None)
    else Plain(text)
  }

  // ------------------------------------------------------------ sender side

  function ShowInts(xs: seq<int>): (r: seq<string>)
    ensures |r| == |xs| && forall i :: 0 <= i < |xs| ==> r[i] == ShowInt(xs[i])
  {
    seq(|xs|, i requires 0 <= i < |xs| => ShowInt(xs[i]))
  }

  function ShowFloats(xs: seq<real>, show: real -> string): (r: seq<string>)
    ensures |r| == |xs| && forall i :: 0 <= i < |xs| ==> r[i] == show(xs[i])
  {
    seq(|xs|, i requires 0 <= i < |xs| => show(xs[i]))
  }

  function FormatDebug(m: Motors, pid: Angles, throttle: real, show: real -> string): string {
    DebugTag + Join(DebugFields(m, pid, throttle, show), '|')
  }

  function FormatTarget(a: Angles, show: real -> string): string {
    TargetTag + Join(ShowFloats([a.roll, a.pitch, a.yaw], show), ',')
  }

  function FormatLoopTime(t: LoopTimes): string {
    LoopTimeTag + " " + Join(ShowInts([t.avg, t.current]), ',')
  }

  /** A field free of every delimiter the sub-protocol uses. */
  predicate Field(s: string) {
    |s| > 0 && ',' !in s && '|' !in s && ':' !in s && ' ' !in s && '\n' !in s
  }

  /** `show` prints `x` as a delimiter-free field that `pf` reads back as `x`. */
  predicate FloatText(pf: FloatParser, show: real -> string, x: real) {
    Field(show(x)) && pf(show(x)) == Some(x)
  }

  predicate InInt64(x: int) {
    Int64Min <= x <= Int64Max
  }

  // ---------------------------------------------------------------- lemmas

  lemma ShowIntField(n: int)
    ensures Field(ShowInt(n))
  {
    var s := ShowInt(n);
    forall i | 0 <= i < |s|
      ensures s[i] != ',' && s[i] != '|' && s[i] != ':' && s[i] != ' ' && s[i] != '\n'
    {
    }
  }

  /** A character absent from the pieces and distinct from the separator is absent from the join. */
  lemma {:induction false} JoinFree(pieces: seq<string>, sep: char, c: char)
    requires c != sep
    requires forall i :: 0 <= i < |pieces| ==> c !in pieces[i]
    ensures c !in Join(pieces, sep)
    decreases |pieces|
  {
    if |pieces| > 1 {
      JoinFree(pieces[1..], sep, c);
    }
  }

  lemma JoinNonEmpty(pieces: seq<string>, sep: char)
    requires |pieces| > 0 && |pieces[0]| > 0
    ensures |Join(pieces, sep)| > 0
  {
  }

  /** A tag containing a character the text lacks does not occur in the text. */
  lemma AbsentCharAbsentTag(s: string, tag: string, k: nat)
    requires k < |tag| && tag[k] !in s
    ensures !Occurs(s, tag)
  {
    forall i | 0 <= i <= |s|
      ensures !OccursAt(s, tag, i)
    {
    }
  }

  /** Removing a leading tag from text in which it cannot recur leaves the rest. */
  lemma StripTag(tag: string, rest: string)
    requires |tag| > 0 && tag[|tag| - 1] == ':' && ':' !in rest
    ensures RemoveOccurrences(tag + rest, tag) == rest
  {
    RemoveLeading(tag, rest);
    AbsentCharAbsentTag(rest, tag, |tag| - 1);
    RemoveAbsent(rest, tag);
  }

  /** Fields joined by commas split back and parse to the integers they print. */
  lemma ParseShownInts(xs: seq<int>)
    requires forall i :: 0 <= i < |xs| ==> InInt64(xs[i])
    ensures Splittable(ShowInts(xs), ',')
    ensures Ints(Join(ShowInts(xs), ',')) == xs
  {
    var fields := ShowInts(xs);
    forall i | 0 <= i < |xs|
      ensures Field(fields[i]) && ParseInt(fields[i]) == Some(xs[i])
    {
      ShowIntField(xs[i]);
      ParseShowInt(xs[i]);
    }
    SplitJoin(fields, ',');
    CompactMapAllSome(fields, ParseInt);
  }

  lemma ParseShownFloats(xs: seq<real>, pf: FloatParser, show: real -> string)
    requires forall i :: 0 <= i < |xs| ==> FloatText(pf, show, xs[i])
    ensures Splittable(ShowFloats(xs, show), ',')
    ensures Floats(Join(ShowFloats(xs, show), ','), pf) == xs
  {
    var fields := ShowFloats(xs, show);
    SplitJoin(fields, ',');
    CompactMapAllSome(fields, pf);
  }

  /** A list of fields joined by commas, as one delimiter-free `|` segment. */
  lemma SegmentOf(fields: seq<string>)
    requires |fields| > 0 && forall i :: 0 <= i < |fields| ==> Field(fields[i])
    ensures |Join(fields, ',')| > 0
    ensures '|' !in Join(fields, ',') && ':' !in Join(fields, ',') && ' ' !in Join(fields, ',')
  {
    JoinNonEmpty(fields, ',');
    JoinFree(fields, ',', '|');
    JoinFree(fields, ',', ':');
    JoinFree(fields, ',', ' ');
  }

  /** A `DBG:` text built from `|`-free, colon-free segments splits back into those segments. */
  lemma DebugPayload(segments: seq<string>)
    requires Splittable(segments, '|')
    requires forall i :: 0 <= i < |segments| ==> ':' !in segments[i]
    ensures HasPrefix(DebugTag + Join(segments, '|'), DebugTag)
    ensures DebugSegments(DebugTag + Join(segments, '|')) == segments
  {
    var body := Join(segments, '|');
    JoinFree(segments, '|', ':');
    StripTag(DebugTag, body);
    assert (DebugTag + body)[..|DebugTag|] == DebugTag;
    SplitJoin(segments, '|');
  }

  /**
   * A `DBG:` text made of three `|`-separated segments routes to the segment decoder; each
   * record depends on its own segment only.
   */
  lemma RouteDebugSegments(segments: seq<string>, pf: FloatParser)
    requires |segments| == 3
    requires forall i :: 0 <= i < 3 ==> |segments[i]| > 0 && '|' !in segments[i] && ':' !in segments[i]
    ensures Route(DebugTag + Join(segments, '|'), pf) == DecodeSegments(segments, pf)
  {
    DebugPayload(segments);
  }

  /** The three segments the firmware prints for a debug sample. */
  function DebugFields(m: Motors, pid: Angles, throttle: real, show: real -> string): seq<string> {
    [Join(ShowInts([m.m1, m.m2, m.m3, m.m4]), ','),
     Join(ShowFloats([pid.roll, pid.pitch, pid.yaw], show), ','),
     show(throttle)]
  }

  lemma MotorsSegment(m: Motors)
    requires InInt64(m.m1) && InInt64(m.m2) && InInt64(m.m3) && InInt64(m.m4)
    ensures var seg := Join(ShowInts([m.m1, m.m2, m.m3, m.m4]), ',');
      |seg| > 0 && '|' !in seg && ':' !in seg && MotorsOf(Ints(seg)) == Some(m)
  {
    var ms := [m.m1, m.m2, m.m3, m.m4];
    ParseShownInts(ms);
    forall i | 0 <= i < 4 ensures Field(ShowInts(ms)[i]) { ShowIntField(ms[i]); }
    SegmentOf(ShowInts(ms));
  }

  lemma AnglesSegment(a: Angles, pf: FloatParser, show: real -> string)
    requires FloatText(pf, show, a.roll) && FloatText(pf, show, a.pitch) && FloatText(pf, show, a.yaw)
    ensures var seg := Join(ShowFloats([a.roll, a.pitch, a.yaw], show), ',');
      |seg| > 0 && '|' !in seg && ':' !in seg && AnglesOf(Floats(seg, pf)) == Some(a)
  {
    var ps := [a.roll, a.pitch, a.yaw];
    ParseShownFloats(ps, pf, show);
    SegmentOf(ShowFloats(ps, show));
  }

  lemma DecodeDebugFields(m: Motors, pid: Angles, throttle: real, pf: FloatParser, show: real -> string)
    requires InInt64(m.m1) && InInt64(m.m2) && InInt64(m.m3) && InInt64(m.m4)
    requires FloatText(pf, show, pid.roll) && FloatText(pf, show, pid.pitch) && FloatText(pf, show, pid.yaw)
    requires FloatText(pf, show, throttle)
    ensures var segments := DebugFields(m, pid, throttle, show);
      && (forall i :: 0 <= i < 3 ==> |segments[i]| > 0 && '|' !in segments[i] && ':' !in segments[i])
      && DecodeSegments(segments, pf) == Debug(Some(m), Some(pid), Some(throttle))
  {
    var s0, s1, s2 := Join(ShowInts([m.m1, m.m2, m.m3, m.m4]), ','), Join(ShowFloats([pid.roll, pid.pitch, pid.yaw], show), ','), show(throttle);
    MotorsSegment(m);
    AnglesSegment(pid, pf, show);
    assert DebugFields(m, pid, throttle, show) == [s0, s1, s2];
    DecodeThree(s0, s1, s2, pf);
  }

  lemma DecodeThree(s0: string, s1: string, s2: string, pf: FloatParser)
    ensures DecodeSegments([s0, s1, s2], pf) == Debug(MotorsOf(Ints(s0)), AnglesOf(Floats(s1, pf)), pf(s2))
  {
  }

  /** What the firmware sends as `DBG:` is decoded into the same three records. */
  lemma DebugRoundTrip(m: Motors, pid: Angles, throttle: real, pf: FloatParser, show: real -> string)
    requires InInt64(m.m1) && InInt64(m.m2) && InInt64(m.m3) && InInt64(m.m4)
    requires FloatText(pf, show, pid.roll) && FloatText(pf, show, pid.pitch) && FloatText(pf, show, pid.yaw)
    requires FloatText(pf, show, throttle)
    ensures Route(FormatDebug(m, pid, throttle, show), pf) == Debug(Some(m), Some(pid), Some(throttle))
  {
    DecodeDebugFields(m, pid, throttle, pf, show);
    RouteDebugSegments(DebugFields(m, pid, throttle, show), pf);
  }

  /** What the firmware sends as `TARGET:` is decoded into the same angles. */
  lemma TargetRoundTrip(a: Angles, pf: FloatParser, show: real -> string)
    requires FloatText(pf, show, a.roll) && FloatText(pf, show, a.pitch) && FloatText(pf, show, a.yaw)
    ensures Route(FormatTarget(a, show), pf) == Target(Some(a))
  {
    var ps := [a.roll, a.pitch, a.yaw];
    var body := Join(ShowFloats(ps, show), ',');
    ParseShownFloats(ps, pf, show);
    SegmentOf(ShowFloats(ps, show));
    StripTag(TargetTag, body);
    var text := TargetTag + body;
    assert text[..|DebugTag|] != DebugTag by { assert text[0] == 'T'; }
    assert text[..|TargetTag|] == TargetTag;
  }

  /** The payload of a `LOOPTIME:` text: tag and every space removed, split on commas, parsed. */
  function LoopTimeValues(text: string): seq<int> {
    Ints(RemoveOccurrences(RemoveOccurrences(text, LoopTimeTag), " "))
  }

  lemma RouteLoopTime(text: string, pf: FloatParser)
    requires HasPrefix(text, LoopTimeTag)
    ensures Route(text, pf) == LoopTime(
      if |LoopTimeValues(text)| >= 2 then Some(LoopTimes(LoopTimeValues(text)[0], LoopTimeValues(text)[1])) else None)
  {
    assert text[0] == 'L';
  }

  lemma LoopTimePayload(t: LoopTimes)
    requires InInt64(t.avg) && InInt64(t.current)
    ensures LoopTimeValues(FormatLoopTime(t)) == [t.avg, t.current]
  {
    var xs := [t.avg, t.current];
    var body := Join(ShowInts(xs), ',');
    ParseShownInts(xs);
    forall i | 0 <= i < 2 ensures Field(ShowInts(xs)[i]) { ShowIntField(xs[i]); }
    SegmentOf(ShowInts(xs));
    StripTag(LoopTimeTag, " " + body);
    assert FormatLoopTime(t) == LoopTimeTag + (" " + body);
    RemoveLeading(" ", body);
    RemoveCharAbsent(body, ' ');
  }

  /** What the firmware sends as `LOOPTIME:` (with a space after the colon) is decoded back. */
  lemma LoopTimeRoundTrip(t: LoopTimes, pf: FloatParser)
    requires InInt64(t.avg) && InInt64(t.current)
    ensures Route(FormatLoopTime(t), pf) == LoopTime(Some(t))
  {
    LoopTimePayload(t);
    assert FormatLoopTime(t)[..|LoopTimeTag|] == LoopTimeTag;
    RouteLoopTime(FormatLoopTime(t), pf);
  }

  // -------------------------------------------------------------- examples

  /** `DBG:1,2,3|0.1,0.2` has only two segments and yields no record at all. */
  lemma TwoSegmentsYieldNothing(pf: FloatParser)
    ensures Route("DBG:1,2,3|0.1,0.2", pf) == Debug(None, None, None)
  {
    var segments := ["1,2,3", "0.1,0.2"];
    DebugPayload(segments);
    assert "DBG:1,2,3|0.1,0.2" == DebugTag + Join(segments, '|');
  }

  /** `LOOPTIME: 120,130` yields average 120 and current 130. */
  lemma LoopTimeExample(pf: FloatParser)
    ensures Route("LOOPTIME: 120,130", pf) == LoopTime(Some(LoopTimes(120, 130)))
  {
    assert ShowInt(120) == "120" by {
      assert ShowNat(12) == "12" by { assert ShowNat(1) == "1"; }
    }
    assert ShowInt(130) == "130" by {
      assert ShowNat(13) == "13" by { assert ShowNat(1) == "1"; }
    }
    assert FormatLoopTime(LoopTimes(120, 130)) == "LOOPTIME: 120,130";
    LoopTimeRoundTrip(LoopTimes(120, 130), pf);
  }
}
