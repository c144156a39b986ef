/**
 * The session recorder: while a session is recorded, telemetry samples are appended as CSV
 * rows to one file per stream; stopping writes a sorted parameter snapshot and session
 * metadata. The file system is an in-memory map from paths to line sequences. The clock,
 * the ISO 8601 timestamp text and `Float` printing/parsing are parameters.
 */
module SessionRecorder {
  import opened Wrappers
  import opened Text
  import StatusText
  import LinkManager

  type Param = LinkManager.ParamEntry
  type FloatParser = StatusText.FloatParser

  // ----------------------------------------------------------- session name

  datatype ClockReading = ClockReading(year: nat, month: nat, day: nat, hour: nat, minute: nat, second: nat)

  predicate ValidClock(t: ClockReading) {
    t.year < 10000 && 1 <= t.month <= 12 && 1 <= t.day <= 31 && t.hour < 24 && t.minute < 60 && t.second < 60
  }

  /** A calendar date and time of day with a four-digit year. */
  type DateTime = t: ClockReading | ValidClock(t) witness ClockReading(2025, 1, 1, 0, 0, 0)

  function Pow10(n: nat): nat {
    if n == 0 then 1 else 10 * Pow10(n - 1)
  }

  /** `n` written in exactly `width` decimal digits, zero-padded on the left. */
  function Padded(n: nat, width: nat): (r: string)
    requires n < Pow10(width)
    ensures |r| == width && AllDigits(r)
  {
    if width == 0 then [] else Padded(n / 10, width - 1) + [DigitChar(n % 10)]
  }

  lemma {:induction false} PaddedValue(n: nat, width: nat)
    requires n < Pow10(width)
    ensures DigitsValue(Padded(n, width)) == n
  {
    if width > 0 {
      var s := Padded(n, width);
      assert s[..|s| - 1] == Padded(n / 10, width - 1);
      PaddedValue(n / 10, width - 1);
    }
  }

  /** `"session_"` and the date formatted as `yyyy-MM-dd_HH-mm-ss`. */
  function SessionName(t: DateTime): (r: string)
    ensures |r| == 27 && HasPrefix(r, "session_")
  {
    "session_" + Padded(t.year, 4) + "-" + Padded(t.month, 2) + "-" + Padded(t.day, 2)
      + "_" + Padded(t.hour, 2) + "-" + Padded(t.minute, 2) + "-" + Padded(t.second, 2)
  }

  lemma PaddedInjective(n: nat, m: nat, width: nat)
    requires n < Pow10(width) && m < Pow10(width) && Padded(n, width) == Padded(m, width)
    ensures n == m
  {
    PaddedValue(n, width);
    PaddedValue(m, width);
  }

  /** Where each field sits in a session name. */
  lemma SessionNameFields(t: DateTime)
    ensures var s := SessionName(t);
      s[8..12] == Padded(t.year, 4) && s[13..15] == Padded(t.month, 2) && s[16..18] == Padded(t.day, 2) &&
      s[19..21] == Padded(t.hour, 2) && s[22..24] == Padded(t.minute, 2) && s[25..27] == Padded(t.second, 2)
  {
    NameLayout(Padded(t.year, 4), Padded(t.month, 2), Padded(t.day, 2),
      Padded(t.hour, 2), Padded(t.minute, 2), Padded(t.second, 2));
  }

  lemma NameLayout(y: string, mo: string, d: string, h: string, mi: string, se: string)
    requires |y| == 4 && |mo| == 2 && |d| == 2 && |h| == 2 && |mi| == 2 && |se| == 2
    ensures var s := "session_" + y + "-" + mo + "-" + d + "_" + h + "-" + mi + "-" + se;
      s[8..12] == y && s[13..15] == mo && s[16..18] == d && s[19..21] == h && s[22..24] == mi && s[25..27] == se
  {
    var p1 := "session_" + y + "-";
    var p2 := p1 + mo + "-";
    var p3 := p2 + d + "_";
    var p4 := p3 + h + "-";
    var p5 := p4 + mi + "-";
    var s := p5 + se;
    SliceOf("session_", y, "-");
    SliceOf(p1, mo, "-");
    SliceOf(p2, d, "_");
    SliceOf(p3, h, "-");
    SliceOf(p4, mi, "-");
    SliceOf(p5, se, "");
    PrefixKept(p1, mo + "-" + d + "_" + h + "-" + mi + "-" + se, 8, 12);
    PrefixKept(p2, d + "_" + h + "-" + mi + "-" + se, 13, 15);
    PrefixKept(p3, h + "-" + mi + "-" + se, 16, 18);
    PrefixKept(p4, mi + "-" + se, 19, 21);
    PrefixKept(p5, se, 22, 24);
  }

  /** The middle piece of a three-part concatenation sits right after the first. */
  lemma SliceOf(pre: string, x: string, post: string)
    ensures (pre + x + post)[|pre|..|pre| + |x|] == x
  {
    assert (pre + x + post)[|pre|..|pre| + |x|] == (pre + x)[|pre|..];
  }

  /** A slice inside a prefix is unchanged by what follows the prefix. */
  lemma PrefixKept(p: string, rest: string, i: nat, j: nat)
    requires i <= j <= |p|
    ensures (p + rest)[i..j] == p[i..j]
  {
  }

  /** Distinct seconds give distinct session directories; the same second gives the same one. */
  lemma SessionNameInjective(a: DateTime, b: DateTime)
    requires SessionName(a) == SessionName(b)
    ensures a == b
  {
    SessionNameFields(a);
    SessionNameFields(b);
    PaddedInjective(a.year, b.year, 4);
    PaddedInjective(a.month, b.month, 2);
    PaddedInjective(a.day, b.day, 2);
    PaddedInjective(a.hour, b.hour, 2);
    PaddedInjective(a.minute, b.minute, 2);
    PaddedInjective(a.second, b.second, 2);
  }

  // ---------------------------------------------------------------- streams

  datatype Stream = Attitude | Motors | Throttle | PidOutput | TargetAttitude | ControlLoopTime | Altitude

  const AllStreams: seq<Stream> := [Attitude, Motors, Throttle, PidOutput, TargetAttitude, ControlLoopTime, Altitude]

  function StreamName(s: Stream): string {
    match s
    case Attitude => "attitude"
    case Motors => "motors"
    case Throttle => "throttle"
    case PidOutput => "pid_output"
    case TargetAttitude => "target_attitude"
    case ControlLoopTime => "control_loop_time"
    case Altitude => "altitude"
  }

  function Header(s: Stream): string {
    match s
    case Attitude => "timestamp,roll,pitch,yaw"
    case Motors => "timestamp,motor1,motor2,motor3,motor4"
    case Throttle => "timestamp,throttle"
    case PidOutput => "timestamp,roll_pid,pitch_pid,yaw_pid"
    case TargetAttitude => "timestamp,target_roll,target_pitch,target_yaw"
    case ControlLoopTime => "timestamp,avg_freq,current_freq,min_freq,max_freq"
    case Altitude => "timestamp,absolute,relative"
  }

  datatype Path = Path(dir: string, file: string)

  function CsvFile(s: Stream): string {
    StreamName(s) + ".csv"
  }

  function CsvPath(dir: string, s: Stream): Path {
    Path(dir, CsvFile(s))
  }

  /** Every stream has its own file name. */
  lemma CsvFileInjective(a: Stream, b: Stream)
    requires CsvFile(a) == CsvFile(b)
    ensures a == b
  {
    var na, nb := StreamName(a), StreamName(b);
    assert |na| == |nb|;
    assert CsvFile(a)[..|na|] == na && CsvFile(b)[..|nb|] == nb;
  }

  lemma AllStreamsListed(s: Stream)
    ensures s in AllStreams
  {
  }

  // ---------------------------------------------------------- recorder state

  datatype Metadata = Metadata(sessionEnd: string, totalParameters: nat, parametersValue: map<string, real>)

  /**
   * `sessionDirectory`, the open `fileHandles` (each the path it writes to), the files'
   * contents as lines, the metadata written per session directory, and the session
   * directories that exist on disk (a file can only be written inside one of them).
   */
  datatype Recorder = Recorder(
    sessionDirectory: Option<string>,
    handles: map<Stream, Path>,
    files: map<Path, seq<string>>,
    metadata: map<string, Metadata>,
    directories: set<string>)

  const Fresh := Recorder(None, map[], map[], map[], {})

  /** The lines of a file; a missing file reads as empty. */
  function FileLines(files: map<Path, seq<string>>, p: Path): seq<string> {
    if p in files then files[p] else []
  }

  /** Every handle writes to its own stream's file name. */
  predicate HandlesWellFormed(r: Recorder) {
    forall s :: s in r.handles ==> r.handles[s].file == CsvFile(s)
  }

  lemma HandlesDistinct(r: Recorder, s: Stream, t: Stream)
    requires HandlesWellFormed(r) && s in r.handles && t in r.handles && s != t
    ensures r.handles[s] != r.handles[t]
  {
    if r.handles[s] == r.handles[t] {
      CsvFileInjective(s, t);
    }
  }

  // ------------------------------------------------------------------ start

  /** What the file system does during `startRecording`. */
  datatype Environment = Environment(
    documents: Option<string>,
    sessionsDirCreated: bool,
    sessionDirCreated: bool,
    openFails: set<Stream>)

  function SessionDirectory(documents: string, t: DateTime): string {
    documents + "/DroneSessions/" + SessionName(t)
  }

  /** `createCSVFile`: an empty file, then, if a handle opens, the handle and the header. */
  function CreateCsvFile(r: Recorder, s: Stream, header: string, fails: set<Stream>): (r': Recorder)
    ensures r'.sessionDirectory == r.sessionDirectory && r'.metadata == r.metadata
    ensures r'.directories == r.directories
    ensures r'.handles == if r.sessionDirectory.None? || s in fails then r.handles
      else r.handles[s := CsvPath(r.sessionDirectory.value, s)]
  {
    match r.sessionDirectory
    case None => r
    case Some(dir) =>
      var path := CsvPath(dir, s);
      if s in fails then r.(files := r.files[path := []])
      else r.(files := r.files[path := [header]], handles := r.handles[s := path])
  }

  function CreateCsvFiles(r: Recorder, streams: seq<Stream>, headers: Stream -> string, fails: set<Stream>): (r': Recorder)
    ensures r'.sessionDirectory == r.sessionDirectory && r'.metadata == r.metadata
    ensures r'.directories == r.directories
    decreases |streams|
  {
    if streams == [] then r else CreateCsvFiles(CreateCsvFile(r, streams[0], headers(streams[0]), fails), streams[1..], headers, fails)
  }

  /** Each listed stream's file holds its header, or nothing when its handle failed to open. */
  lemma {:induction false} CreateCsvFilesContent(r: Recorder, streams: seq<Stream>, headers: Stream -> string, fails: set<Stream>, s: Stream)
    requires r.sessionDirectory.Some? && s in streams
    ensures FileLines(CreateCsvFiles(r, streams, headers, fails).files, CsvPath(r.sessionDirectory.value, s))
      == (if s in fails then [] else [headers(s)])
    decreases |streams|
  {
    var dir := r.sessionDirectory.value;
    var first := CreateCsvFile(r, streams[0], headers(streams[0]), fails);
    if s in streams[1..] {
      CreateCsvFilesContent(first, streams[1..], headers, fails, s);
    } else {
      assert s == streams[0];
      forall t | t in streams[1..] ensures CsvPath(dir, s) != CsvPath(dir, t) {
        if CsvPath(dir, s) == CsvPath(dir, t) {
          CsvFileInjective(s, t);
        }
      }
      CreateCsvFilesOtherFiles(first, streams[1..], headers, fails, CsvPath(dir, s));
    }
  }

  /** A file no listed stream writes is left as it was. */
  lemma {:induction false} CreateCsvFilesOtherFiles(r: Recorder, streams: seq<Stream>, headers: Stream -> string, fails: set<Stream>, p: Path)
    requires r.sessionDirectory.Some?
    requires forall s :: s in streams ==> p != CsvPath(r.sessionDirectory.value, s)
    ensures FileLines(CreateCsvFiles(r, streams, headers, fails).files, p) == FileLines(r.files, p)
    decreases |streams|
  {
    if streams != [] {
      CreateCsvFilesOtherFiles(CreateCsvFile(r, streams[0], headers(streams[0]), fails), streams[1..], headers, fails, p);
    }
  }

  /** The handle stream `s` has open, if any. */
  function HandleOf(r: Recorder, s: Stream): Option<Path> {
    if s in r.handles then Some(r.handles[s]) else None
  }

  /** A listed stream whose handle opens gets a handle on its new file; any other keeps its handle. */
  lemma {:induction false} CreateCsvFilesHandles(r: Recorder, streams: seq<Stream>, headers: Stream -> string, fails: set<Stream>, s: Stream)
    requires r.sessionDirectory.Some?
    ensures HandleOf(CreateCsvFiles(r, streams, headers, fails), s) ==
      if s in streams && s !in fails then Some(CsvPath(r.sessionDirectory.value, s)) else HandleOf(r, s)
    decreases |streams|
  {
    if streams != [] {
      var r1 := CreateCsvFile(r, streams[0], headers(streams[0]), fails);
      assert HandleOf(r1, s) == if s == streams[0] && s !in fails then Some(CsvPath(r.sessionDirectory.value, s)) else HandleOf(r, s);
      CreateCsvFilesHandles(r1, streams[1..], headers, fails, s);
      assert s in streams <==> s == streams[0] || s in streams[1..];
    }
  }

  lemma {:induction false} CreateCsvFilesWellFormed(r: Recorder, streams: seq<Stream>, headers: Stream -> string, fails: set<Stream>)
    requires HandlesWellFormed(r)
    ensures HandlesWellFormed(CreateCsvFiles(r, streams, headers, fails))
    decreases |streams|
  {
    if streams != [] {
      CreateCsvFilesWellFormed(CreateCsvFile(r, streams[0], headers(streams[0]), fails), streams[1..], headers, fails);
    }
  }

  /**
   * `startRecording`: returns the recorder and whether it threw. Without a documents
   * directory nothing happens; a failure to create the sessions directory throws before any
   * change; the session directory is remembered before its own creation can throw, and
   * exists only once that creation succeeds; then the seven stream files are created.
   */
  function StartRecording(r: Recorder, env: Environment, now: DateTime): (res: (Recorder, bool))
    ensures env.documents.None? ==> res == (r, false)
    ensures env.documents.Some? && !env.sessionsDirCreated ==> res == (r, true)
    ensures env.documents.Some? && env.sessionsDirCreated ==>
      && res.0.sessionDirectory == Some(SessionDirectory(env.documents.value, now))
      && res.1 == !env.sessionDirCreated
      && res.0.metadata == r.metadata
      && (SessionDirectory(env.documents.value, now) in res.0.directories
          <==> env.sessionDirCreated || SessionDirectory(env.documents.value, now) in r.directories)
    ensures env.documents.Some? && env.sessionsDirCreated && !env.sessionDirCreated ==>
      res.0 == r.(sessionDirectory := Some(SessionDirectory(env.documents.value, now)))
  {
    match env.documents
    case None => (r, false)
    case Some(docs) =>
      if !env.sessionsDirCreated then (r, true)
      else
        var dir := SessionDirectory(docs, now);
        var r1 := r.(sessionDirectory := Some(dir));
        if !env.sessionDirCreated then (r1, true)
        else (CreateCsvFiles(r1.(directories := r1.directories + {dir}), AllStreams, Header, env.openFails), false)
  }

  lemma StartKeepsWellFormed(r: Recorder, env: Environment, now: DateTime)
    requires HandlesWellFormed(r)
    ensures HandlesWellFormed(StartRecording(r, env, now).0)
  {
    if env.documents.Some? && env.sessionsDirCreated && env.sessionDirCreated {
      var dir := SessionDirectory(env.documents.value, now);
      var r1 := r.(sessionDirectory := Some(dir), directories := r.directories + {dir});
      CreateCsvFilesWellFormed(r1, AllStreams, Header, env.openFails);
    }
  }

  /** A start that succeeds opens every stream whose handle opens, each holding exactly its header. */
  lemma StartOpensStreams(r: Recorder, env: Environment, now: DateTime, s: Stream)
    requires env.documents.Some? && env.sessionsDirCreated && env.sessionDirCreated
    ensures var (r', threw) := StartRecording(r, env, now);
      var path := CsvPath(SessionDirectory(env.documents.value, now), s);
      && !threw
      && FileLines(r'.files, path) == (if s in env.openFails then [] else [Header(s)])
      && (s !in env.openFails ==> s in r'.handles && r'.handles[s] == path)
      && (s in env.openFails ==> (s in r'.handles <==> s in r.handles))
  {
    AllStreamsListed(s);
    var dir := SessionDirectory(env.documents.value, now);
    var r1 := r.(sessionDirectory := Some(dir), directories := r.directories + {dir});
    CreateCsvFilesContent(r1, AllStreams, Header, env.openFails, s);
    CreateCsvFilesHandles(r1, AllStreams, Header, env.openFails, s);
    assert HandleOf(StartRecording(r, env, now).0, s) == if s in env.openFails then HandleOf(r, s) else Some(CsvPath(SessionDirectory(env.documents.value, now), s));
  }

  // ------------------------------------------------------------------ writes

  /** One sample for one of the `write*` methods. */
  datatype Sample =
    | AttitudeSample(roll: real, pitch: real, yaw: real)
    | MotorsSample(m1: int, m2: int, m3: int, m4: int)
    | ThrottleSample(value: real)
    | PidSample(roll: real, pitch: real, yaw: real)
    | TargetSample(roll: real, pitch: real, yaw: real)
    | LoopTimeSample(avgFreq: int, currentFreq: int)
    | AltitudeSample(absolute: real, relative: real)

  function StreamOf(x: Sample): Stream {
    match x
    case AttitudeSample(_, _, _) => Attitude
    case MotorsSample(_, _, _, _) => Motors
    case ThrottleSample(_) => Throttle
    case PidSample(_, _, _) => PidOutput
    case TargetSample(_, _, _) => TargetAttitude
    case LoopTimeSample(_, _) => ControlLoopTime
    case AltitudeSample(_, _) => Altitude
  }

  /** The printed values of a sample, in the order of the row. */
  function Fields(x: Sample, show: real -> string): seq<string> {
    match x
    case AttitudeSample(r, p, y) => [show(r), show(p), show(y)]
    case MotorsSample(m1, m2, m3, m4) => [ShowInt(m1), ShowInt(m2), ShowInt(m3), ShowInt(m4)]
    case ThrottleSample(v) => [show(v)]
    case PidSample(r, p, y) => [show(r), show(p), show(y)]
    case TargetSample(r, p, y) => [show(r), show(p), show(y)]
    case LoopTimeSample(a, c) => [ShowInt(a), ShowInt(c)]
    case AltitudeSample(a, rel) => [show(a), show(rel)]
  }

  /** The row: the timestamp, then the values, comma-separated. */
  function Row(stamp: string, x: Sample, show: real -> string): string {
    Join([stamp] + Fields(x, show), ',')
  }

  /** A line bound for one stream's file. */
  datatype Line = Line(stream: Stream, text: string)

  /** Writing one line: appended to the stream's file if the stream is open, dropped otherwise. */
  function AppendLine(r: Recorder, l: Line): (r': Recorder)
    ensures r'.handles == r.handles && r'.sessionDirectory == r.sessionDirectory && r'.metadata == r.metadata
    ensures l.stream !in r.handles ==> r' == r
    ensures l.stream in r.handles ==>
      FileLines(r'.files, r.handles[l.stream]) == FileLines(r.files, r.handles[l.stream]) + [l.text]
  {
    if l.stream !in r.handles then r
    else
      var path := r.handles[l.stream];
      r.(files := r.files[path := FileLines(r.files, path) + [l.text]])
  }

  /** A line touches no file but its own stream's. */
  lemma AppendLineOtherFiles(r: Recorder, l: Line, p: Path)
    requires l.stream !in r.handles || p != r.handles[l.stream]
    ensures FileLines(AppendLine(r, l).files, p) == FileLines(r.files, p)
  {
  }

  /** A `write*` call: the sample's row appended to its stream if that stream is open. */
  function Write(r: Recorder, stamp: string, x: Sample, show: real -> string): (r': Recorder)
    ensures r'.handles == r.handles && r'.sessionDirectory == r.sessionDirectory && r'.metadata == r.metadata
    ensures StreamOf(x) !in r.handles ==> r' == r
    ensures StreamOf(x) in r.handles ==>
      FileLines(r'.files, r.handles[StreamOf(x)]) ==
        FileLines(r.files, r.handles[StreamOf(x)]) + [Row(stamp, x, show)]
  {
    AppendLine(r, Line(StreamOf(x), Row(stamp, x, show)))
  }

  /** A timestamped sample. */
  datatype Entry = Entry(stamp: string, sample: Sample)

  /** The lines the entries produce, each bound for its sample's stream. */
  function Tagged(entries: seq<Entry>, show: real -> string): (ls: seq<Line>)
    ensures |ls| == |entries|
    ensures forall i :: 0 <= i < |entries| ==> ls[i].stream == StreamOf(entries[i].sample)
    decreases |entries|
  {
    if entries == [] then []
    else [Line(StreamOf(entries[0].sample), Row(entries[0].stamp, entries[0].sample, show))] + Tagged(entries[1..], show)
  }

  function AppendLines(r: Recorder, ls: seq<Line>): Recorder
    decreases |ls|
  {
    if ls == [] then r else AppendLines(AppendLine(r, ls[0]), ls[1..])
  }

  /** The texts of the lines bound for stream `s`, in order. */
  function TextsFor(ls: seq<Line>, s: Stream): seq<string>
    decreases |ls|
  {
    if ls == [] then [] else (if ls[0].stream == s then [ls[0].text] else []) + TextsFor(ls[1..], s)
  }

  /** A sequence of `write*` calls. */
  function WriteAll(r: Recorder, entries: seq<Entry>, show: real -> string): Recorder {
    AppendLines(r, Tagged(entries, show))
  }

  /** `WriteAll` is the `write*` calls made one after the other. */
  lemma WriteAllSteps(r: Recorder, entries: seq<Entry>, show: real -> string)
    requires entries != []
    ensures WriteAll(r, entries, show) == WriteAll(Write(r, entries[0].stamp, entries[0].sample, show), entries[1..], show)
  {
  }

  /** The rows the entries of stream `s` produce, in order. */
  function RowsOf(entries: seq<Entry>, s: Stream, show: real -> string): seq<string> {
    TextsFor(Tagged(entries, show), s)
  }

  /** Stream `s` writes to `p`, and no other open stream does. */
  ghost predicate OwnHandle(r: Recorder, s: Stream, p: Path) {
    s in r.handles && r.handles[s] == p && forall t :: t in r.handles && t != s ==> r.handles[t] != p
  }

  /** One line adds its text to stream `s`'s file exactly when it is bound for `s`. */
  lemma AppendLineStep(r: Recorder, l: Line, s: Stream, p: Path)
    requires OwnHandle(r, s, p)
    ensures OwnHandle(AppendLine(r, l), s, p)
    ensures FileLines(AppendLine(r, l).files, p) == FileLines(r.files, p) + (if l.stream == s then [l.text] else [])
  {
    if l.stream != s {
      AppendLineOtherFiles(r, l, p);
    }
  }

  /** An open stream gains exactly the lines bound for it, whatever else is written. */
  lemma {:induction false} AppendLinesAppends(r: Recorder, ls: seq<Line>, s: Stream, p: Path)
    requires OwnHandle(r, s, p)
    ensures FileLines(AppendLines(r, ls).files, p) == FileLines(r.files, p) + TextsFor(ls, s)
    decreases |ls|
  {
    if ls != [] {
      var r1 := AppendLine(r, ls[0]);
      var x := if ls[0].stream == s then [ls[0].text] else [];
      AppendLineStep(r, ls[0], s, p);
      AppendLinesAppends(r1, ls[1..], s, p);
      assert TextsFor(ls, s) == x + TextsFor(ls[1..], s);
      assert FileLines(AppendLines(r, ls).files, p) == (FileLines(r.files, p) + x) + TextsFor(ls[1..], s);
    }
  }

  /** An open stream gains exactly the rows of its own samples, whatever else is written. */
  lemma WriteAllAppends(r: Recorder, entries: seq<Entry>, s: Stream, show: real -> string)
    requires HandlesWellFormed(r) && s in r.handles
    ensures var path := r.handles[s];
      FileLines(WriteAll(r, entries, show).files, path) == FileLines(r.files, path) + RowsOf(entries, s, show)
  {
    forall t | t in r.handles && t != s ensures r.handles[t] != r.handles[s] {
      HandlesDistinct(r, s, t);
    }
    AppendLinesAppends(r, Tagged(entries, show), s, r.handles[s]);
  }

  /** Lines for a closed stream change nothing of its files. */
  lemma {:induction false} AppendLinesClosed(r: Recorder, ls: seq<Line>, s: Stream)
    requires HandlesWellFormed(r) && s !in r.handles
    ensures AppendLines(r, ls).handles == r.handles
    ensures forall p: Path :: p.file == CsvFile(s) ==> FileLines(AppendLines(r, ls).files, p) == FileLines(r.files, p)
    decreases |ls|
  {
    if ls != [] {
      var l := ls[0];
      forall p: Path | p.file == CsvFile(s) ensures FileLines(AppendLine(r, l).files, p) == FileLines(r.files, p) {
        if l.stream in r.handles && p == r.handles[l.stream] {
          CsvFileInjective(s, l.stream);
        }
        AppendLineOtherFiles(r, l, p);
      }
      AppendLinesClosed(AppendLine(r, l), ls[1..], s);
    }
  }

  /** A closed stream is never written. */
  lemma WriteAllClosed(r: Recorder, entries: seq<Entry>, s: Stream, show: real -> string)
    requires HandlesWellFormed(r) && s !in r.handles
    ensures WriteAll(r, entries, show).handles == r.handles
    ensures forall p: Path :: p.file == CsvFile(s) ==> FileLines(WriteAll(r, entries, show).files, p) == FileLines(r.files, p)
  {
    AppendLinesClosed(r, Tagged(entries, show), s);
  }

  /** N samples of an opened stream between start and stop leave N + 1 lines in its file. */
  lemma RecordedLines(r: Recorder, env: Environment, now: DateTime, entries: seq<Entry>, s: Stream, show: real -> string)
    requires HandlesWellFormed(r)
    requires env.documents.Some? && env.sessionsDirCreated && env.sessionDirCreated && s !in env.openFails
    ensures var path := CsvPath(SessionDirectory(env.documents.value, now), s);
      FileLines(WriteAll(StartRecording(r, env, now).0, entries, show).files, path)
        == [Header(s)] + RowsOf(entries, s, show)
  {
    StartOpensStreams(r, env, now, s);
    StartKeepsWellFormed(r, env, now);
    WriteAllAppends(StartRecording(r, env, now).0, entries, s, show);
  }

  // ------------------------------------------------------- parameter snapshot

  const SnapshotFile: string := "all_parameters.csv"
  const SnapshotHeader: string := "parameter_name,value"

  /** Swift's `<` on the ids, as lexicographic order on characters. */
  predicate LexLe(a: string, b: string)
    decreases |a|
  {
    a == [] || (b != [] && (a[0] < b[0] || (a[0] == b[0] && LexLe(a[1..], b[1..]))))
  }

  lemma {:induction false} LexLeTotal(a: string, b: string)
    ensures LexLe(a, b) || LexLe(b, a)
    decreases |a|
  {
    if a != [] && b != [] && a[0] == b[0] {
      LexLeTotal(a[1..], b[1..]);
    }
  }

  predicate SortedById(ps: seq<Param>) {
    forall i :: 0 <= i < |ps| - 1 ==> LexLe(ps[i].id, ps[i + 1].id)
  }

  function Insert(p: Param, ps: seq<Param>): (r: seq<Param>)
    ensures |r| == |ps| + 1 && multiset(r) == multiset(ps) + multiset{p}
    ensures r[0] == p || (ps != [] && r[0] == ps[0])
    decreases |ps|
  {
    if ps == [] || LexLe(p.id, ps[0].id) then [p] + ps
    else
      assert ps == [ps[0]] + ps[1..];
      [ps[0]] + Insert(p, ps[1..])
  }

  /** Inserting into a sorted sequence keeps it sorted. */
  lemma {:induction false} InsertSorted(p: Param, ps: seq<Param>)
    requires SortedById(ps)
    ensures SortedById(Insert(p, ps))
    decreases |ps|
  {
    if ps != [] && !LexLe(p.id, ps[0].id) {
      LexLeTotal(p.id, ps[0].id);
      InsertSorted(p, ps[1..]);
      var rest := Insert(p, ps[1..]);
      var r := Insert(p, ps);
      assert r == [ps[0]] + rest;
      forall i | 0 <= i < |r| - 1 ensures LexLe(r[i].id, r[i + 1].id) {
        if i > 0 {
          assert r[i] == rest[i - 1] && r[i + 1] == rest[i];
        }
      }
    }
  }

  /** `parameters.sorted { $0.id < $1.id }`, as a stable insertion sort. */
  function SortById(ps: seq<Param>): (r: seq<Param>)
    ensures |r| == |ps| && multiset(r) == multiset(ps) && SortedById(r)
    decreases |ps|
  {
    if ps == [] then []
    else
      assert ps == [ps[0]] + ps[1..];
      InsertSorted(ps[0], SortById(ps[1..]));
      Insert(ps[0], SortById(ps[1..]))
  }

  /** An id containing a comma is written in double quotes. */
  function Quote(id: string): (r: string)
    ensures ',' in r <==> ',' in id
  {
    if ',' in id then "\"" + id + "\"" else id
  }

  function SnapshotRow(p: Param, show: real -> string): string {
    Quote(p.id) + "," + show(p.value)
  }

  function Rows(ps: seq<Param>, show: real -> string): (r: seq<string>)
    ensures |r| == |ps| && forall i :: 0 <= i < |ps| ==> r[i] == SnapshotRow(ps[i], show)
    decreases |ps|
  {
    if ps == [] then [] else [SnapshotRow(ps[0], show)] + Rows(ps[1..], show)
  }

  /** `saveAllParameters`: the header, then one row per parameter in ascending id order. */
  function SnapshotLines(params: seq<Param>, show: real -> string): (r: seq<string>)
    ensures |r| == |params| + 1 && r[0] == SnapshotHeader
    ensures forall i :: 1 <= i < |r| ==> ',' in r[i]
  {
    var rows := Rows(SortById(params), show);
    forall i | 0 <= i < |rows| ensures ',' in rows[i] {
      assert rows[i][|Quote(SortById(params)[i].id)|] == ',';
    }
    [SnapshotHeader] + rows
  }

  /** The last value given to each id, as `reduce(into:)` builds it. */
  function LastValues(ps: seq<Param>): (m: map<string, real>)
    ensures |m| <= |ps|
    decreases |ps|
  {
    if ps == [] then map[]
    else
      var last := ps[|ps| - 1];
      LastValues(ps[..|ps| - 1])[last.id := last.value]
  }

  function SnapshotPath(dir: string): Path {
    Path(dir, SnapshotFile)
  }

  /** The remembered session directory exists, so files can be written into it. */
  predicate DirectoryExists(r: Recorder) {
    r.sessionDirectory.Some? && r.sessionDirectory.value in r.directories
  }

  /**
   * `stopRecording`: every handle is forgotten; with a session directory the snapshot is
   * (over)written and the metadata recorded. Both writes are `try?`: when the remembered
   * directory was never created they fail silently and nothing is written.
   */
  function StopRecording(r: Recorder, params: seq<Param>, stamp: string, show: real -> string): (r': Recorder)
    ensures r'.handles == map[] && r'.sessionDirectory == r.sessionDirectory
    ensures r'.directories == r.directories
    ensures !DirectoryExists(r) ==> r'.files == r.files && r'.metadata == r.metadata
    ensures DirectoryExists(r) ==>
      var dir := r.sessionDirectory.value;
      && FileLines(r'.files, SnapshotPath(dir)) == SnapshotLines(params, show)
      && (forall p :: p != SnapshotPath(dir) ==> FileLines(r'.files, p) == FileLines(r.files, p))
      && dir in r'.metadata
      && r'.metadata[dir].totalParameters == |params|
      && r'.metadata[dir].parametersValue == LastValues(params)
      && r'.metadata[dir].sessionEnd == stamp
  {
    var closed := r.(handles := map[]);
    match r.sessionDirectory
    case None => closed
    case Some(dir) =>
      if dir !in r.directories then closed
      else closed.(files := closed.files[SnapshotPath(dir) := SnapshotLines(params, show)],
                   metadata := closed.metadata[dir := Metadata(stamp, |params|, LastValues(params))])
  }

  /**
   * A start whose session directory could not be created still remembers that directory,
   * but the stop that follows writes neither the snapshot nor the metadata.
   */
  lemma FailedStartStopWritesNothing(r: Recorder, env: Environment, now: DateTime, params: seq<Param>, stamp: string, show: real -> string)
    requires env.documents.Some? && env.sessionsDirCreated && !env.sessionDirCreated
    requires SessionDirectory(env.documents.value, now) !in r.directories
    ensures var (started, threw) := StartRecording(r, env, now);
      var stopped := StopRecording(started, params, stamp, show);
      && threw
      && stopped.sessionDirectory == Some(SessionDirectory(env.documents.value, now))
      && stopped.files == r.files && stopped.metadata == r.metadata
  {
  }

  /** After a stop every `write*` is a no-op. */
  lemma WriteAfterStop(r: Recorder, params: seq<Param>, stamp: string, x: Sample, show: real -> string, stamp2: string)
    ensures var stopped := StopRecording(r, params, stamp, show);
      Write(stopped, stamp2, x, show) == stopped
  {
  }

  /** Stopping again with no parameters, as deinitialisation does, leaves a header-only snapshot. */
  lemma StopAgainEmptiesSnapshot(r: Recorder, params: seq<Param>, stamp: string, stamp2: string, show: real -> string)
    requires DirectoryExists(r)
    ensures var again := StopRecording(StopRecording(r, params, stamp, show), [], stamp2, show);
      FileLines(again.files, SnapshotPath(r.sessionDirectory.value)) == [SnapshotHeader]
  {
  }

  // ----------------------------------------------------------------- metadata

  lemma {:induction false} LastValuesKeys(ps: seq<Param>, id: string)
    ensures id in LastValues(ps) <==> exists i :: 0 <= i < |ps| && ps[i].id == id
    decreases |ps|
  {
    if ps != [] {
      var init := ps[..|ps| - 1];
      LastValuesKeys(init, id);
      if exists i :: 0 <= i < |init| && init[i].id == id {
        var i :| 0 <= i < |init| && init[i].id == id;
        assert ps[i].id == id;
      }
      if exists i :: 0 <= i < |ps| && ps[i].id == id {
        var i :| 0 <= i < |ps| && ps[i].id == id;
        if i < |init| {
          assert init[i].id == id;
        }
      }
    }
  }

  /** Each id maps to the value of its last occurrence. */
  lemma {:induction false} LastValuesLast(ps: seq<Param>, i: nat)
    requires i < |ps| && forall j :: i < j < |ps| ==> ps[j].id != ps[i].id
    ensures ps[i].id in LastValues(ps) && LastValues(ps)[ps[i].id] == ps[i].value
    decreases |ps|
  {
    if i < |ps| - 1 {
      var init := ps[..|ps| - 1];
      LastValuesLast(init, i);
    }
  }

  predicate DistinctIds(ps: seq<Param>) {
    forall i, j :: 0 <= i < j < |ps| ==> ps[i].id != ps[j].id
  }

  /** The value map has one key per parameter exactly when the ids are distinct. */
  lemma {:induction false} LastValuesSize(ps: seq<Param>)
    ensures |LastValues(ps)| == |ps| <==> DistinctIds(ps)
    decreases |ps|
  {
    if ps != [] {
      var init := ps[..|ps| - 1];
      var last := ps[|ps| - 1];
      LastValuesSize(init);
      LastValuesKeys(init, last.id);
      if DistinctIds(ps) {
        assert DistinctIds(init) by {
          forall i, j | 0 <= i < j < |init| ensures init[i].id != init[j].id {
            assert init[i] == ps[i] && init[j] == ps[j];
          }
        }
        assert last.id !in LastValues(init) by {
          forall i | 0 <= i < |init| ensures init[i].id != last.id {
            assert init[i] == ps[i];
          }
        }
      } else {
        var i, j :| 0 <= i < j < |ps| && ps[i].id == ps[j].id;
        if j == |ps| - 1 {
          assert init[i].id == last.id;
        } else {
          assert init[i].id == init[j].id;
        }
      }
    }
  }

  // ------------------------------------------------------------------ reading

  /** The outcome of one line for the reader as written. */
  datatype LineRead = Trap | Skipped | Read(entry: Param)

  /** One line as `getLastParametersData` reads it: `value[1]` is indexed unguarded. */
  function ReadLineAsWritten(line: string, pf: FloatParser): LineRead {
    var value := Split(line, ',');
    if |value| < 2 then Trap
    else match pf(value[1])
      case Some(v) => Read(LinkManager.ParamEntry(value[0], v))
      case None => Skipped
  }

  /** The lines read in order; `None` when any of them traps. */
  function ReadLinesAsWritten(lines: seq<string>, pf: FloatParser): (r: Option<seq<Param>>)
    ensures r.Some? ==> |r.value| <= |lines|
    decreases |lines|
  {
    if lines == [] then Some([])
    else
      var rest := ReadLinesAsWritten(lines[1..], pf);
      match ReadLineAsWritten(lines[0], pf)
      case Trap => None
      case Skipped => rest
      case Read(p) => if rest.Some? then Some([p] + rest.value) else None
  }

  /** The reader as written fails exactly when one of the lines traps. */
  lemma {:induction false} ReadLinesAsWrittenTraps(lines: seq<string>, pf: FloatParser)
    ensures ReadLinesAsWritten(lines, pf).None? <==> exists i :: 0 <= i < |lines| && ReadLineAsWritten(lines[i], pf).Trap?
    decreases |lines|
  {
    if lines != [] {
      ReadLinesAsWrittenTraps(lines[1..], pf);
      assert forall i :: 1 <= i < |lines| ==> lines[1..][i - 1] == lines[i];
    }
  }

  /** `getLastParametersData` as written; `content` is `None` when no snapshot could be read. */
  function ReadSnapshotAsWritten(content: Option<string>, pf: FloatParser): Option<seq<Param>> {
    match content
    case None => Some([])
    case Some(text) => ReadLinesAsWritten(Split(text, '\n'), pf)
  }

  function LastIndexOf(s: string, c: char): (i: nat)
    requires c in s
    ensures i < |s| && s[i] == c && c !in s[i + 1..]
    decreases |s|
  {
    if s[|s| - 1] == c then |s| - 1
    else
      assert c in s[..|s| - 1] by {
        var k :| 0 <= k < |s| && s[k] == c;
        assert s[..|s| - 1][k] == c;
      }
      var i := LastIndexOf(s[..|s| - 1], c);
      assert s[i + 1..] == s[..|s| - 1][i + 1..] + [s[|s| - 1]];
      i
  }

  /** The only occurrence of `c` after position `k`, if `s[k]` is `c`, is the last one. */
  lemma LastIndexOfAt(s: string, c: char, k: nat)
    requires k < |s| && s[k] == c && c !in s[k + 1..]
    ensures LastIndexOf(s, c) == k
  {
  }

  /** The writer's quotes removed: only an id with a comma was quoted. */
  function Unquote(field: string): string {
    if |field| >= 2 && field[0] == '"' && field[|field| - 1] == '"' && ',' in field
    then field[1..|field| - 1]
    else field
  }

  lemma UnquoteQuote(id: string)
    ensures Unquote(Quote(id)) == id
  {
    if ',' in id {
      var q := Quote(id);
      assert q[1..|q| - 1] == id;
    }
  }

  /**
   * One line as the snapshot format evidently intends: the value follows the last comma,
   * the id is everything before it without the writer's quotes; a line without a comma, or
   * whose value does not parse, is skipped.
   */
  function ReadLine(line: string, pf: FloatParser): (r: Option<Param>)
    ensures ',' !in line ==> r.None?
  {
    if ',' !in line then None
    else
      var i := LastIndexOf(line, ',');
      match pf(line[i + 1..])
      case Some(v) => Some(LinkManager.ParamEntry(Unquote(line[..i]), v))
      case None => None
  }

  function ReadLines(lines: seq<string>, pf: FloatParser): (r: seq<Param>)
    ensures |r| <= |lines|
    decreases |lines|
  {
    if lines == [] then []
    else
      (match ReadLine(lines[0], pf) case Some(p) => [p] case None => []) + ReadLines(lines[1..], pf)
  }

  /** `getLastParametersData` as evidently intended. */
  function ReadSnapshot(content: Option<string>, pf: FloatParser): seq<Param> {
    match content
    case None => []
    case Some(text) => ReadLines(Split(text, '\n'), pf)
  }

  /** A parameter whose value prints as a delimiter-free field that reads back as the value. */
  predicate Writable(p: Param, pf: FloatParser, show: real -> string) {
    StatusText.FloatText(pf, show, p.value) && '\n' !in p.id
  }

  lemma ReadRow(p: Param, pf: FloatParser, show: real -> string)
    requires Writable(p, pf, show)
    ensures ReadLine(SnapshotRow(p, show), pf) == Some(p)
  {
    var q := Quote(p.id);
    var row := SnapshotRow(p, show);
    assert row == q + [','] + show(p.value);
    assert row[|q|] == ',';
    assert ',' !in row[|q| + 1..] by { assert row[|q| + 1..] == show(p.value); }
    LastIndexOfAt(row, ',', |q|);
    assert row[..|q|] == q && row[|q| + 1..] == show(p.value);
    UnquoteQuote(p.id);
  }

  lemma ReadHeader(pf: FloatParser)
    requires pf("value") == None
    ensures ReadLine(SnapshotHeader, pf) == None
  {
    var h := SnapshotHeader;
    assert h[14] == ',';
    assert h[15..] == "value";
    LastIndexOfAt(h, ',', 14);
  }

  lemma {:induction false} ReadRowsBack(ps: seq<Param>, pf: FloatParser, show: real -> string)
    requires forall i :: 0 <= i < |ps| ==> Writable(ps[i], pf, show)
    ensures ReadLines(Rows(ps, show), pf) == ps
    decreases |ps|
  {
    if ps != [] {
      ReadRow(ps[0], pf, show);
      var rows := Rows(ps, show);
      assert rows[1..] == Rows(ps[1..], show);
      ReadRowsBack(ps[1..], pf, show);
    }
  }

  /** A writable parameter's row is a non-empty, newline-free line. */
  lemma RowIsLine(p: Param, show: real -> string, pf: FloatParser)
    requires Writable(p, pf, show)
    ensures |SnapshotRow(p, show)| > 0 && '\n' !in SnapshotRow(p, show)
  {
    var q := Quote(p.id);
    assert '\n' !in q;
    assert SnapshotRow(p, show) == q + [','] + show(p.value);
  }

  /** Rows are non-empty, newline-free lines. */
  lemma RowsAreLines(ps: seq<Param>, show: real -> string, pf: FloatParser)
    requires forall i :: 0 <= i < |ps| ==> Writable(ps[i], pf, show)
    ensures Splittable(Rows(ps, show), '\n')
  {
    var rows := Rows(ps, show);
    forall i | 0 <= i < |rows| ensures |rows[i]| > 0 && '\n' !in rows[i] {
      RowIsLine(ps[i], show, pf);
    }
  }

  /** Sorting keeps every parameter writable. */
  lemma SortedWritable(params: seq<Param>, pf: FloatParser, show: real -> string)
    requires forall i :: 0 <= i < |params| ==> Writable(params[i], pf, show)
    ensures forall i :: 0 <= i < |SortById(params)| ==> Writable(SortById(params)[i], pf, show)
  {
    var sorted := SortById(params);
    forall i | 0 <= i < |sorted| ensures Writable(sorted[i], pf, show) {
      assert sorted[i] in multiset(params) by { assert sorted[i] in multiset(sorted); }
      var k :| 0 <= k < |params| && params[k] == sorted[i];
    }
  }

  /** The snapshot file splits back into its header and rows. */
  lemma SnapshotFileLines(params: seq<Param>, pf: FloatParser, show: real -> string)
    requires forall i :: 0 <= i < |params| ==> Writable(params[i], pf, show)
    ensures Split(Lines(SnapshotLines(params, show)), '\n') == [SnapshotHeader] + Rows(SortById(params), show)
  {
    var sorted := SortById(params);
    var rows := Rows(sorted, show);
    assert SnapshotLines(params, show) == [SnapshotHeader] + rows;
    SortedWritable(params, pf, show);
    RowsAreLines(sorted, show, pf);
    HeaderThenRowsSplittable(rows);
    SplitLines([SnapshotHeader] + rows);
  }

  lemma HeaderThenRowsSplittable(rows: seq<string>)
    requires Splittable(rows, '\n')
    ensures Splittable([SnapshotHeader] + rows, '\n')
  {
    var lines := [SnapshotHeader] + rows;
    HeaderIsLine();
    forall i | 0 <= i < |lines| ensures |lines[i]| > 0 && '\n' !in lines[i] {
      if i > 0 {
        assert lines[i] == rows[i - 1];
      }
    }
  }

  lemma HeaderIsLine()
    ensures |SnapshotHeader| > 0 && '\n' !in SnapshotHeader
  {
  }

  /**
   * Reading back a snapshot gives the parameters sorted by id, for any ids without a newline
   * (empty ids and ids with commas included) and values that print and parse back: any text
   * that splits into the header and the rows, as the written file does (`SnapshotFileLines`).
   */
  lemma SnapshotRoundTrip(text: string, params: seq<Param>, pf: FloatParser, show: real -> string)
    requires forall i :: 0 <= i < |params| ==> Writable(params[i], pf, show)
    requires pf("value") == None
    requires Split(text, '\n') == [SnapshotHeader] + Rows(SortById(params), show)
    ensures ReadSnapshot(Some(text), pf) == SortById(params)
  {
    SkipHeader(Rows(SortById(params), show), pf);
    SortedWritable(params, pf, show);
    ReadRowsBack(SortById(params), pf, show);
  }

  /** The corrected reader skips the header line. */
  lemma SkipHeader(rows: seq<string>, pf: FloatParser)
    requires pf("value") == None
    ensures ReadLines([SnapshotHeader] + rows, pf) == ReadLines(rows, pf)
  {
    ReadHeader(pf);
    assert ([SnapshotHeader] + rows)[1..] == rows;
  }

  /** A row with a non-empty, comma-free id is read as written correctly. */
  lemma ReadPlainRowAsWritten(p: Param, pf: FloatParser, show: real -> string)
    requires Writable(p, pf, show) && |p.id| > 0 && ',' !in p.id
    ensures ReadLineAsWritten(SnapshotRow(p, show), pf) == Read(p)
  {
    assert SnapshotRow(p, show) == Join([p.id, show(p.value)], ',');
    SplitJoin([p.id, show(p.value)], ',');
  }

  /** Lines that each read as a parameter are read, in order, as those parameters. */
  lemma {:induction false} ReadAllAsWritten(lines: seq<string>, ps: seq<Param>, pf: FloatParser)
    requires |lines| == |ps|
    requires forall i :: 0 <= i < |lines| ==> ReadLineAsWritten(lines[i], pf) == Read(ps[i])
    ensures ReadLinesAsWritten(lines, pf) == Some(ps)
    decreases |lines|
  {
    if lines != [] {
      forall i | 0 <= i < |lines| - 1 ensures ReadLineAsWritten(lines[1..][i], pf) == Read(ps[1..][i]) {
        assert lines[1..][i] == lines[i + 1];
      }
      ReadAllAsWritten(lines[1..], ps[1..], pf);
      assert ps == [ps[0]] + ps[1..];
    }
  }

  /** As written, the reader also returns the rows' parameters when every id is comma-free and non-empty. */
  lemma AsWrittenReadsPlainRows(ps: seq<Param>, pf: FloatParser, show: real -> string)
    requires forall i :: 0 <= i < |ps| ==> Writable(ps[i], pf, show) && |ps[i].id| > 0 && ',' !in ps[i].id
    ensures ReadLinesAsWritten(Rows(ps, show), pf) == Some(ps)
  {
    var rows := Rows(ps, show);
    forall i | 0 <= i < |ps| ensures ReadLineAsWritten(rows[i], pf) == Read(ps[i]) {
      ReadPlainRowAsWritten(ps[i], pf, show);
    }
    ReadAllAsWritten(rows, ps, pf);
  }

  /** The reader as written skips the header. */
  lemma HeaderSkippedAsWritten(pf: FloatParser)
    requires pf("value") == None
    ensures ReadLineAsWritten(SnapshotHeader, pf) == Skipped
  {
    var header := ["parameter_name", "value"];
    assert SnapshotHeader == Join(header, ',');
    SplitJoin(header, ',');
  }

  /** An id the reader as written reads back: non-empty and without a comma. */
  predicate PlainId(p: Param) {
    |p.id| > 0 && ',' !in p.id
  }

  /**
   * As written, reading back a snapshot whose ids are all plain gives the parameters sorted
   * by id, like the corrected reader.
   */
  lemma SnapshotRoundTripAsWritten(text: string, params: seq<Param>, pf: FloatParser, show: real -> string)
    requires forall i :: 0 <= i < |params| ==> Writable(params[i], pf, show) && PlainId(params[i])
    requires pf("value") == None
    requires Split(text, '\n') == [SnapshotHeader] + Rows(SortById(params), show)
    ensures ReadSnapshotAsWritten(Some(text), pf) == Some(SortById(params))
  {
    var sorted := SortById(params);
    forall i | 0 <= i < |sorted| ensures Writable(sorted[i], pf, show) && PlainId(sorted[i]) {
      assert sorted[i] in multiset(params) by { assert sorted[i] in multiset(sorted); }
      var k :| 0 <= k < |params| && params[k] == sorted[i];
    }
    AsWrittenReadsPlainRows(sorted, pf, show);
    HeaderSkippedAsWritten(pf);
    assert ([SnapshotHeader] + Rows(sorted, show))[1..] == Rows(sorted, show);
  }

  /** The row of an empty id holds a single field, so the reader as written traps on it. */
  lemma EmptyIdRowTraps(p: Param, pf: FloatParser, show: real -> string)
    requires Writable(p, pf, show) && p.id == []
    ensures ReadLineAsWritten(SnapshotRow(p, show), pf) == Trap
  {
    var row := SnapshotRow(p, show);
    assert row == [','] + show(p.value);
    IndexOfAfter([], show(p.value), ',');
    assert row[1..] == show(p.value);
    assert Split(show(p.value), ',') == [show(p.value)];
    assert Split(row, ',') == [show(p.value)];
  }

  /** A snapshot holding a parameter with an empty id makes the reader as written trap. */
  lemma EmptyIdTraps(params: seq<Param>, pf: FloatParser, show: real -> string, k: nat)
    requires forall i :: 0 <= i < |params| ==> Writable(params[i], pf, show)
    requires k < |params| && params[k].id == []
    ensures ReadLinesAsWritten(SnapshotLines(params, show), pf) == None
  {
    var sorted := SortById(params);
    assert params[k] in multiset(sorted) by { assert params[k] in multiset(params); }
    var j :| 0 <= j < |sorted| && sorted[j] == params[k];
    var lines := SnapshotLines(params, show);
    assert lines[j + 1] == SnapshotRow(sorted[j], show);
    EmptyIdRowTraps(sorted[j], pf, show);
    ReadLinesAsWrittenTraps(lines, pf);
  }

  /** The id `x,y,z` is written quoted, as four comma-separated fields. */
  lemma CommaIdRow(x: string, y: string, z: string, v: real, show: real -> string)
    requires |x| > 0 && ',' !in x && ',' !in y
    ensures SnapshotRow(LinkManager.ParamEntry(x + "," + y + "," + z, v), show)
      == Join(["\"" + x, y, z + "\"", show(v)], ',')
  {
    var pieces := ["\"" + x, y, z + "\"", show(v)];
    assert (x + "," + y + "," + z)[|x|] == ',';
    assert pieces[1..][1..] == [z + "\"", show(v)];
    assert Join(pieces[1..][1..], ',') == z + "\"" + "," + show(v);
    assert Join(pieces[1..], ',') == y + "," + Join(pieces[1..][1..], ',');
    assert Join(pieces, ',') == "\"" + x + "," + Join(pieces[1..], ',');
  }

  /**
   * An id with two commas, `x,y,z`, is read back by the reader as written as the id `"x` with
   * the value `y` stands for (the id `a,5,c` as `"a` = 5); the value written is lost.
   */
  lemma CommaIdMisread(x: string, y: string, z: string, v: real, w: real, pf: FloatParser, show: real -> string)
    requires |x| > 0 && |y| > 0 && |z| > 0 && ',' !in x && ',' !in y && ',' !in z
    requires StatusText.FloatText(pf, show, v) && pf(y) == Some(w)
    ensures ReadLineAsWritten(SnapshotRow(LinkManager.ParamEntry(x + "," + y + "," + z, v), show), pf)
      == Read(LinkManager.ParamEntry("\"" + x, w))
  {
    var pieces := ["\"" + x, y, z + "\"", show(v)];
    CommaIdRow(x, y, z, v, show);
    assert Splittable(pieces, ',');
    SplitJoin(pieces, ',');
  }

  /** The corrected reader returns such a parameter unchanged. */
  lemma CommaIdReadBack(x: string, y: string, z: string, v: real, pf: FloatParser, show: real -> string)
    requires '\n' !in x && '\n' !in y && '\n' !in z && StatusText.FloatText(pf, show, v)
    ensures ReadLine(SnapshotRow(LinkManager.ParamEntry(x + "," + y + "," + z, v), show), pf)
      == Some(LinkManager.ParamEntry(x + "," + y + "," + z, v))
  {
    ReadRow(LinkManager.ParamEntry(x + "," + y + "," + z, v), pf, show);
  }

}
