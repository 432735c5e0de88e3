/**
 * The candidate's video panel: elapsed-time formatting, and the interview session
 * (start, stop, the one-second elapsed-time tick and the adoption of a classifier
 * label) as a state machine. The pure functions over `Session` specify the steps;
 * `SessionController` holds the component's state in fields and performs them.
 *
 * The browser and the outside world are parameters: whether the camera request is
 * granted, whether the classifier pipeline loads, the clock reading `now` in
 * milliseconds, and what the classifier returned for a frame.
 */
module VideoInterview {
  import opened Wrappers
  import opened JsNumber

  // ---------------------------------------------------------------- formatTime

  /** `formatTime`: whole minutes, a colon, and the remaining seconds padded to two places. */
  function FormatTime(seconds: int): (r: string)
    ensures seconds >= 0 ==> r == NatToString(seconds / 60) + ":" + PadStart(NatToString(seconds % 60), 2, '0')
  {
    var minutes := FloorDiv(seconds, 60);
    var remainingSeconds := JsRem(seconds, 60);
    IntToString(minutes) + ":" + PadStart(IntToString(remainingSeconds), 2, '0')
  }

  /**
   * Reads an `M:SS` display back into seconds: a non-empty run of digits, a colon,
   * and exactly two digits. Anything else is `None`.
   */
  function ParseClock(t: string): (r: Option<nat>)
    ensures r.Some? ==> |t| >= 4 && t[|t| - 3] == ':'
  {
    if |t| >= 4 && t[|t| - 3] == ':' && AllDigits(t[..|t| - 3]) && AllDigits(t[|t| - 2..]) then
      Some(ParseNat(t[..|t| - 3]) * 60 + ParseNat(t[|t| - 2..]))
    else
      None
  }

  /**
   * For a non-negative count of seconds, the display is the minutes in decimal, a colon
   * in the third place from the end, and a seconds field of exactly two digits whose
   * value is below 60.
   */
  lemma FormatTimeFields(seconds: nat)
    ensures var t := FormatTime(seconds);
      |t| >= 4 && t[|t| - 3] == ':' &&
      t[..|t| - 3] == NatToString(seconds / 60) &&
      AllDigits(t[|t| - 2..]) && ParseNat(t[|t| - 2..]) == seconds % 60 < 60
  {
    var m := NatToString(seconds / 60);
    var ss := PadStart(NatToString(seconds % 60), 2, '0');
    TwoDigitRoundTrip(seconds % 60);
    SplitAtColon(m, ss);
  }

  /** The pieces of `m + ":" + ss` when the last field has two characters. */
  lemma SplitAtColon(m: string, ss: string)
    requires |m| >= 1 && |ss| == 2
    ensures var t := m + ":" + ss;
      |t| >= 4 && t[..|t| - 3] == m && t[|t| - 3] == ':' && t[|t| - 2..] == ss
  {
    var t := m + ":" + ss;
    assert t[..|t| - 3] == m;
    assert t[|t| - 2..] == ss;
  }

  /** Round trip: reading the minutes and seconds back gives the number that was formatted. */
  lemma FormatTimeRoundTrip(seconds: nat)
    ensures ParseClock(FormatTime(seconds)) == Some(seconds)
  {
    var m := NatToString(seconds / 60);
    var ss := PadStart(NatToString(seconds % 60), 2, '0');
    ParseNatToString(seconds / 60);
    TwoDigitRoundTrip(seconds % 60);
    ReadClock(m, ss);
  }

  /** A digit-only minutes field, a colon and a two-digit seconds field read as minutes * 60 + seconds. */
  lemma ReadClock(m: string, ss: string)
    requires |m| >= 1 && AllDigits(m) && |ss| == 2 && AllDigits(ss)
    ensures ParseClock(m + ":" + ss) == Some(ParseNat(m) * 60 + ParseNat(ss))
  {
    SplitAtColon(m, ss);
  }

  /** Two different non-negative durations never show the same display. */
  lemma FormatTimeInjective(a: nat, b: nat)
    requires FormatTime(a) == FormatTime(b)
    ensures a == b
  {
    FormatTimeRoundTrip(a);
    FormatTimeRoundTrip(b);
  }

  /** The displays for 125, 59 and 0 seconds. */
  lemma FormatTimeExamples()
    ensures FormatTime(125) == "2:05"
    ensures FormatTime(59) == "0:59"
    ensures FormatTime(0) == "0:00"
  {
    ShowsAs(125, "2", "05");
    ShowsAs(59, "0", "59");
    ShowsAs(0, "0", "00");
  }

  /** One concrete display, checked field by field. */
  lemma ShowsAs(seconds: nat, m: string, ss: string)
    requires NatToString(seconds / 60) == m
    requires PadStart(NatToString(seconds % 60), 2, '0') == ss
    ensures FormatTime(seconds) == m + ":" + ss
  {
  }

  /**
   * A negative duration (only possible if the clock went back) is shown with the floored
   * minutes and JavaScript's signed remainder, which padStart leaves alone: -1 is "-1:-1".
   */
  lemma FormatTimeNegative()
    ensures FormatTime(-1) == "-1:-1"
    ensures FormatTime(-61) == "-2:-1"
  {
    assert FloorDiv(-1, 60) == -1 && JsRem(-1, 60) == -1 && FloorDiv(-61, 60) == -2;
    assert IntToString(-1) == "-1" && IntToString(-2) == "-2";
    assert PadStart("-1", 2, '0') == "-1";
    assert FormatTime(-1) == "-1" + ":" + "-1";
    assert FormatTime(-61) == "-2" + ":" + "-1";
  }

  // ---------------------------------------------------------------- session state

  /** The identity of a granted `MediaStream`; its tracks are not modelled. */
  type StreamHandle = nat

  /** What `getUserMedia({video: true, audio: true})` did: resolved with a stream, or threw. */
  datatype Capture = Granted(handle: StreamHandle) | Denied

  /**
   * What the image classifier returned for one frame: something that is not an array, or
   * an array whose entries are `Some(label)` when the entry has a `label` property.
   */
  datatype ClassifierOutput = NotAnArray | Entries(labels: seq<Option<string>>)

  /** A toast notification: title, description, and whether it is the destructive (error) variant. */
  datatype Toast = Toast(title: string, description: string, destructive: bool)

  const StartedToast := Toast("Interview Started", "Connected with recruitment officer", false)
  const MediaErrorToast := Toast("Error", "Could not access camera or microphone", true)

  const DurationPrefix := "Interview duration: "

  /**
   * The "completed" toast: its description is the fixed prefix followed by the duration,
   * which reads back as the duration.
   */
  function CompletedToast(time: int): (r: Toast)
    ensures |DurationPrefix| <= |r.description| && r.description[..|DurationPrefix|] == DurationPrefix
    ensures time >= 0 ==> ParseClock(r.description[|DurationPrefix|..]) == Some(time)
  {
    var d := DurationPrefix + FormatTime(time);
    assert d[|DurationPrefix|..] == FormatTime(time);
    FormatTimeRoundTrip(if time >= 0 then time else 0);
    Toast("Interview Completed", d, false)
  }

  /**
   * The component's state: `isRecording`, `stream` (null or a stream), `time` in seconds,
   * `startTimeRef.current` (null or a millisecond instant) and `analysis` (null or a label).
   */
  datatype Session = Session(
    isRecording: bool,
    stream: Option<StreamHandle>,
    time: int,
    startTime: Option<int>,
    analysis: Option<string>)

  const InitialSession := Session(false, None, 0, None, None)

  /** The state after an operation, and the toasts it showed, in order. */
  datatype Step = Step(next: Session, toasts: seq<Toast>)

  /**
   * `startInterview` up to its second suspension, the `await pipeline(...)` that loads the
   * classifier. A denied capture throws before any state is set, so only the error toast
   * appears. A granted capture stores the stream, sets recording, records `now` as the
   * start and resets the time, then shows the "started" toast.
   */
  function Start(s: Session, capture: Capture, now: int): (r: Step)
    ensures |r.toasts| == 1 && (r.toasts[0].destructive <==> capture.Denied?)
    ensures RecordingIffStream(s) ==> RecordingIffStream(r.next)
    ensures r.next.analysis == s.analysis
  {
    match capture
    case Denied => Step(s, [MediaErrorToast])
    case Granted(h) => Step(s.(stream := Some(h), isRecording := true, startTime := Some(now), time := 0), [StartedToast])
  }

  /**
   * The rest of `startInterview`, once the classifier load has settled (other handlers may
   * have run meanwhile). A load that throws reaches the same catch block as a denied capture
   * and shows the camera error toast; a successful one registers the analysis interval.
   * Neither touches the state.
   */
  function ClassifierLoaded(s: Session, loads: bool): (r: Step)
    ensures r.next == s
    ensures r.toasts == [] <==> loads
  {
    Step(s, if loads then [] else [MediaErrorToast])
  }

  /**
   * `stopInterview`. Only when a stream is held: drop it, stop recording and show the
   * duration. The elapsed time and the start instant are kept.
   */
  function Stop(s: Session): (r: Step)
    ensures r.next.stream.None?
    ensures RecordingIffStream(s) ==> !r.next.isRecording
    ensures r.next.time == s.time && r.next.startTime == s.startTime && r.next.analysis == s.analysis
    ensures |r.toasts| <= 1 && (r.toasts != [] <==> s.stream.Some?)
  {
    if s.stream.Some? then
      Step(s.(stream := None, isRecording := false), [CompletedToast(s.time)])
    else
      Step(s, [])
  }

  /** `Math.floor((now - start) / 1000)`: whole seconds from `start` to `now`, rounded down. */
  function Elapsed(start: int, now: int): (r: int)
    ensures r * 1000 <= now - start < r * 1000 + 1000
    ensures now >= start ==> r >= 0
  {
    FloorDiv(now - start, 1000)
  }

  /**
   * The tick's guard `if (startTimeRef.current)`: JavaScript truthiness, so null and 0 both
   * fail it and every other start instant passes it.
   */
  function HasStart(s: Session): (b: bool)
    ensures s.startTime == None ==> !b
    ensures s.startTime == Some(0) ==> !b
    ensures s.startTime.Some? && s.startTime.value != 0 ==> b
  {
    s.startTime.Some? && s.startTime.value != 0
  }

  /** The one-second interval's callback: recompute `time` from the start instant. */
  function Tick(s: Session, now: int): (r: Session)
    ensures r == s.(time := r.time)
    ensures r.time != s.time ==> HasStart(s)
  {
    if HasStart(s) then s.(time := Elapsed(s.startTime.value, now)) else s
  }

  /**
   * The label a frame's classification yields: the first entry's label, when the output is
   * a non-empty array whose first entry has one.
   */
  function TopLabel(output: ClassifierOutput): (r: Option<string>)
    ensures r.Some? <==> output.Entries? && |output.labels| > 0 && output.labels[0].Some?
    ensures r.Some? ==> r == output.labels[0]
  {
    if output.Entries? && |output.labels| > 0 then output.labels[0] else None
  }

  /** The analysis callback after classification: adopt the top label, if there is one. */
  function Analyze(s: Session, output: ClassifierOutput): (r: Session)
    ensures r == s.(analysis := r.analysis)
    ensures output.NotAnArray? ==> r == s
  {
    match TopLabel(output)
    case Some(top) => s.(analysis := Some(top))
    case None => s
  }

  /** The session records exactly while it holds a stream. */
  predicate RecordingIffStream(s: Session) {
    s.isRecording <==> s.stream.Some?
  }

  // ---------------------------------------------------------------- properties

  /** A granted capture leaves the session recording from `now`, at time 0, holding the stream. */
  lemma StartGranted(s: Session, h: StreamHandle, now: int)
    ensures Start(s, Granted(h), now) ==
      Step(Session(true, Some(h), 0, Some(now), s.analysis), [StartedToast])
  {
  }

  /** A denied capture changes no field; the only effect is the error toast. */
  lemma StartDeniedChangesNothing(s: Session, now: int)
    ensures Start(s, Denied, now) == Step(s, [MediaErrorToast])
  {
  }

  /**
   * A classifier that fails to load does not end the session: after a granted start it is
   * still recording with the same state, and the toasts are "started" then the camera error.
   */
  lemma ClassifierFailureKeepsRecording(s: Session, h: StreamHandle, now: int)
    ensures var started := Start(s, Granted(h), now);
      var loaded := ClassifierLoaded(started.next, false);
      loaded.next == started.next && loaded.next.isRecording &&
      started.toasts + loaded.toasts == [StartedToast, MediaErrorToast]
  {
  }

  /**
   * "End Interview" may run while the classifier loads. The session is then stopped before
   * the load settles, the "completed" toast comes before any classifier error, and the
   * load's outcome leaves the stopped state as it is.
   */
  lemma StopWhileClassifierLoads(s: Session, h: StreamHandle, now: int, loads: bool)
    ensures var started := Start(s, Granted(h), now);
      var stopped := Stop(started.next);
      var loaded := ClassifierLoaded(stopped.next, loads);
      !loaded.next.isRecording && loaded.next.stream.None? && loaded.next.time == 0 &&
      started.toasts + stopped.toasts + loaded.toasts ==
        [StartedToast, CompletedToast(0)] + (if loads then [] else [MediaErrorToast])
  {
  }

  /** Stopping with a stream held releases it and stops recording, and keeps everything else. */
  lemma StopReleases(s: Session)
    requires s.stream.Some?
    ensures Stop(s) == Step(Session(false, None, s.time, s.startTime, s.analysis), [CompletedToast(s.time)])
  {
  }

  /** Stopping without a stream does nothing and shows nothing. */
  lemma StopWithoutStream(s: Session)
    requires s.stream.None?
    ensures Stop(s) == Step(s, [])
  {
  }

  /**
   * Stopping twice is stopping once: the second call changes nothing and shows no toast.
   */
  lemma StopIdempotent(s: Session)
    ensures Stop(Stop(s).next) == Step(Stop(s).next, [])
  {
  }

  /**
   * "Recording exactly while a stream is held" holds initially and after every operation:
   * start (either outcome), the end of the classifier load, stop, a tick and an analysis.
   */
  lemma RecordingIffStreamPreserved(s: Session, capture: Capture, loads: bool, now: int, output: ClassifierOutput)
    requires RecordingIffStream(s)
    ensures RecordingIffStream(InitialSession)
    ensures RecordingIffStream(Start(s, capture, now).next)
    ensures RecordingIffStream(ClassifierLoaded(s, loads).next)
    ensures RecordingIffStream(Stop(s).next)
    ensures RecordingIffStream(Tick(s, now))
    ensures RecordingIffStream(Analyze(s, output))
  {
  }

  /** The tick writes only `time`, with the whole seconds elapsed since the recorded start. */
  lemma TickSetsElapsed(s: Session, now: int)
    requires HasStart(s)
    ensures var t := Tick(s, now);
      t == s.(time := t.time) &&
      t.time * 1000 <= now - s.startTime.value < t.time * 1000 + 1000
  {
  }

  /** Without a (truthy) start instant the tick does nothing. */
  lemma TickWithoutStart(s: Session, now: int)
    requires !HasStart(s)
    ensures Tick(s, now) == s
  {
  }

  /** Whole elapsed seconds never go down while the clock does not go back. */
  lemma ElapsedMonotone(start: int, now1: int, now2: int)
    requires now1 <= now2
    ensures Elapsed(start, now1) <= Elapsed(start, now2)
  {
    var q1, q2 := Elapsed(start, now1), Elapsed(start, now2);
    assert q1 * 1000 < q2 * 1000 + 1000;
  }

  /** Successive ticks with a non-decreasing clock give a non-decreasing `time`. */
  lemma TickMonotone(s: Session, now1: int, now2: int)
    requires HasStart(s) && now1 <= now2
    ensures Tick(s, now1).time <= Tick(Tick(s, now1), now2).time
  {
    ElapsedMonotone(s.startTime.value, now1, now2);
  }

  /**
   * The analysis step changes only the label. It becomes the first entry's label when the
   * output is a non-empty array whose first entry has one; otherwise the old label stays.
   */
  lemma AnalyzeAdoptsOnlyWellFormed(s: Session, output: ClassifierOutput)
    ensures Analyze(s, output) == s.(analysis := Analyze(s, output).analysis)
    ensures Analyze(s, output).analysis ==
      if output.Entries? && |output.labels| > 0 && output.labels[0].Some? then output.labels[0] else s.analysis
    ensures Analyze(s, output).analysis != s.analysis ==>
      output.Entries? && |output.labels| > 0 && output.labels[0].Some? && Analyze(s, output).analysis == output.labels[0]
  {
  }

  /**
   * One recording: start granted at a non-zero instant, a tick at `now`, then stop. The
   * stop keeps the last elapsed time and reports it in its toast; starting again resets it.
   */
  lemma StopKeepsLastTime(s: Session, h: StreamHandle, start: int, now: int, h2: StreamHandle, later: int)
    requires start != 0
    ensures var recording := Tick(Start(s, Granted(h), start).next, now);
      var stopped := Stop(recording);
      recording.time == Elapsed(start, now) &&
      !stopped.next.isRecording && stopped.next.time == Elapsed(start, now) &&
      stopped.toasts == [CompletedToast(Elapsed(start, now))] &&
      Start(stopped.next, Granted(h2), later).next.time == 0
  {
  }

  /** After a denied first start, ticks change nothing: the component stays in its initial state. */
  lemma DeniedStartNeverTicks(start: int, now: int)
    ensures Tick(Start(InitialSession, Denied, start).next, now) == InitialSession
  {
  }

  // ---------------------------------------------------------------- the component

  /** The `VideoInterview` component's state, updated in place by its handlers. */
  class SessionController {
    var isRecording: bool
    var stream: Option<StreamHandle>
    var time: int
    var startTime: Option<int>
    var analysis: Option<string>

    function State(): Session
      reads this
    {
      Session(isRecording, stream, time, startTime, analysis)
    }

    /** The component records exactly while it holds a stream. */
    ghost predicate Valid()
      reads this
    {
      RecordingIffStream(State())
    }

    /** The initial `useState`/`useRef` values: not recording, no stream, time 0, no start, no label. */
    constructor ()
      ensures Valid() && State() == InitialSession
    {
      isRecording, stream, time, startTime, analysis := false, None, 0, None, None;
    }

    /** `startInterview` until it awaits the classifier, with the capture result and `Date.now()` given. */
    method StartInterview(capture: Capture, now: int) returns (toasts: seq<Toast>)
      modifies this
      ensures old(Valid()) ==> Valid()
      ensures var r := Start(old(State()), capture, now);
        State() == r.next && toasts == r.toasts
    {
      match capture {
        case Denied =>
          toasts := [MediaErrorToast];
        case Granted(h) =>
          stream := Some(h);
          isRecording := true;
          startTime := Some(now);
          time := 0;
          toasts := [StartedToast];
      }
    }

    /**
     * `startInterview` resuming after `await pipeline(...)`: `loads` tells whether the
     * classifier loaded; `analysisScheduled` whether the analysis interval was registered.
     */
    method FinishStart(loads: bool) returns (toasts: seq<Toast>, analysisScheduled: bool)
      ensures toasts == ClassifierLoaded(State(), loads).toasts
      ensures analysisScheduled == loads
    {
      if loads {
        toasts, analysisScheduled := [], true;
      } else {
        toasts, analysisScheduled := [MediaErrorToast], false;
      }
    }

    /** `stopInterview`. */
    method StopInterview() returns (toasts: seq<Toast>)
      modifies this
      ensures old(Valid()) ==> Valid()
      ensures var r := Stop(old(State()));
        State() == r.next && toasts == r.toasts
    {
      toasts := [];
      if stream.Some? {
        stream := None;
        isRecording := false;
        toasts := [CompletedToast(time)];
      }
    }

    /** One firing of the elapsed-time interval, with `Date.now()` given. */
    method TickElapsed(now: int)
      modifies this
      ensures old(Valid()) ==> Valid()
      ensures State() == Tick(old(State()), now)
    {
      if HasStart(State()) {
        time := FloorDiv(now - startTime.value, 1000);
      }
    }

    /** The end of one analysis firing: the classifier's output for the captured frame is given. */
    method AnalyzeFrame(output: ClassifierOutput)
      modifies this
      ensures old(Valid()) ==> Valid()
      ensures State() == Analyze(old(State()), output)
    {
      if output.Entries? && |output.labels| > 0 && output.labels[0].Some? {
        analysis := output.labels[0];
      }
    }
  }
}
