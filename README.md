# Mock interview: question feed and video session, modelled in Dafny

The application is a browser mock-interview page. Two components hold its logic:

- **AIInterviewer** keeps a fixed list of five interview questions, a cursor, and the
  list of questions asked so far. Each "Ask Next Question" click appends the question
  under the cursor, numbered one past the number already asked and stamped with the
  time of day, and advances the cursor. When the list is used up a click does nothing.
- **VideoInterview** runs one interview session. Starting asks for the camera and
  microphone. If that is granted it holds the stream, records, resets the elapsed time
  and notes the start instant. A one-second tick recomputes the elapsed whole seconds.
  A five-second analysis step adopts the label an image classifier gives for a frame.
  Stopping releases the stream and stops recording but keeps the elapsed time. That time
  is shown as `M:SS` by `formatTime`.

Files:

- `Wrappers.dfy`: `Option`, standing for JavaScript's `null` and missing properties.
- `JsNumber.dfy`: the JavaScript number operations used. `Math.floor(a / b)` is
  `FloorDiv`. The truncating `%` is `JsRem`. Integer `toString` is `IntToString` and
  `NatToString`. `padStart` is `PadStart`. `ParseNat` is the decimal reader used as
  their inverse.
- `VideoInterview.dfy`: `FormatTime` and its round trip through `ParseClock`.
  `Session` is the component state. `Start` (up to the classifier load),
  `ClassifierLoaded` (the rest of the start once the load settles), `Stop`, `Tick` and
  `Analyze` are the transitions, each returning the next state and the toasts shown.
  `SessionController` is a class whose fields are that state, and its methods are proved
  to perform exactly those transitions.
- `AIInterviewer.dfy`: `Question`, `PredefinedQuestions`, and the transition `AskNext`
  over `Feed` (asked questions and cursor). `AskMany` is a run of clicks. `Interviewer`
  is a class whose method `AskNextQuestion` is proved to perform `AskNext`.

Inputs from outside the program are parameters:

- the outcome of `getUserMedia`: `Granted(handle)` or `Denied`;
- whether loading the classifier pipeline succeeds;
- `Date.now()` in milliseconds;
- the classifier's output: not an array, or an array of entries that may carry a label;
- the `toLocaleTimeString()` stamp of a question.

Points where the code's behaviour is easy to misread:

- The classifier is loaded once per start, and never lazily or again on a later tick.
  The start awaits that load after the session is already recording, so "End Interview"
  can run in between (`StopWhileClassifierLoads`).
  If loading fails, the catch block shows the same "Could not access camera or
  microphone" toast as a denied camera. No analysis interval is registered then, but
  the session stays recording.
- The analysis step has no "video not ready" guard on the frame size.
- The tick's guard `if (startTimeRef.current)` uses JavaScript truthiness, so a start
  instant of 0 is treated like none.
- `formatTime` floors the minutes but takes a sign-keeping remainder. A negative
  duration, which happens only if the clock goes back, shows as `-1:-1` for -1 second
  (`FormatTimeNegative`).

## Model

| member | source | states |
|---|---|---|
| `AIInterviewer.AskNext` | src/components/AIInterviewer.tsx:24-34 | a click only appends to the asked questions (the old list is a prefix of the new one) and adds at most one question |
| `AIInterviewer.AskNextAppendsOne` | src/components/AIInterviewer.tsx:25-32 | while the cursor is below 5, a click appends exactly one question with id = previous count + 1 and the text under the cursor before the increment; the cursor goes up by exactly one |
| `AIInterviewer.AskNextWhenExhausted` | src/components/AIInterviewer.tsx:25 | with the cursor at the end of the list a click leaves questions and cursor unchanged (no wrap-around) |
| `AIInterviewer.AskNextKeepsConsistent` | src/components/AIInterviewer.tsx:24-34 | a click preserves the invariant: cursor <= 5, count of asked questions == cursor, i-th asked question has id i+1 and the i-th predefined text |
| `AIInterviewer.TextsArePrefix` | src/components/AIInterviewer.tsx:27-31 | in every consistent state the asked texts are exactly the first n predefined questions, in order |
| `AIInterviewer.AskManyFromConsistent` | src/components/AIInterviewer.tsx:24-34 | any run of clicks keeps the invariant, never alters or reorders earlier questions, asks min(remaining, clicks) new ones, stamped in click order |
| `AIInterviewer.AskAllThenNoOp` | src/components/AIInterviewer.tsx:16-34 | from the initial state five clicks give all five questions in original order with ids 1..5, and a sixth click changes nothing |
| `AIInterviewer.Interviewer.constructor` | src/components/AIInterviewer.tsx:13-14 | the component starts with no questions and cursor 0, which satisfies the invariant |
| `AIInterviewer.Interviewer.AskNextQuestion` | src/components/AIInterviewer.tsx:24-34 | updating the two fields in place performs exactly `AskNext` on the old state and keeps the invariant |
| `JsNumber.FloorDiv` | src/components/VideoInterview.tsx:125 | `Math.floor(a / b)` is the q with q*b <= a < q*b + b |
| `JsNumber.JsRem` | src/components/VideoInterview.tsx:126 | JavaScript `%` keeps the dividend's sign: for a >= 0 it is in [0, b) and recombines with the floored quotient into a; for a < 0 it is in (-b, 0] and corresponds to the quotient rounded toward zero |
| `JsNumber.NatToString` | src/components/VideoInterview.tsx:127 | a non-negative integer prints as one or more decimal digits with no leading zero (except "0") |
| `JsNumber.IntToString` | src/components/VideoInterview.tsx:127 | an integer prints as digits exactly when it is non-negative, and begins with '-' exactly when it is negative; the digits (after the '-' for a negative number) read back as its absolute value |
| `JsNumber.ParseNatToString` | src/components/VideoInterview.tsx:127 | reading back the printed digits of n gives n |
| `JsNumber.PadStart` | src/components/VideoInterview.tsx:127 | `padStart` yields length max(len, target), ends with the original string, and is filled with the fill character in front |
| `JsNumber.TwoDigitRoundTrip` | src/components/VideoInterview.tsx:127 | a number below 100 padded to two places is exactly two digits that read back as the number |
| `VideoInterview.FormatTime` | src/components/VideoInterview.tsx:124-128 | for s >= 0 the display is the decimal minutes s / 60, a colon, and s % 60 padded to two places with '0' |
| `VideoInterview.FormatTimeFields` | src/components/VideoInterview.tsx:124-127 | for s >= 0 the colon is third from the end, the part before it is the minutes, and the seconds field is exactly two digits with value s % 60 < 60 |
| `VideoInterview.FormatTimeRoundTrip` | src/components/VideoInterview.tsx:125-127 | reading minutes and seconds back from `formatTime(s)` and computing m*60 + ss gives s for every s >= 0 |
| `VideoInterview.FormatTimeInjective` | src/components/VideoInterview.tsx:124-128 | different non-negative durations never show the same display |
| `VideoInterview.FormatTimeExamples` | src/components/VideoInterview.tsx:124-128 | 125 shows "2:05", 59 shows "0:59", 0 shows "0:00" |
| `VideoInterview.FormatTimeNegative` | src/components/VideoInterview.tsx:125-127 | a negative duration shows floored minutes and a signed remainder: -1 is "-1:-1", -61 is "-2:-1" |
| `VideoInterview.CompletedToast` | src/components/VideoInterview.tsx:117-120 | the "completed" description is "Interview duration: " followed by the duration text; for a non-negative time that text reads back as the elapsed seconds |
| `VideoInterview.Start` | src/components/VideoInterview.tsx:46-72 | a start shows exactly one toast, the error variant exactly when the capture is denied; it keeps "recording exactly while a stream is held" and never changes the label (exact outcomes: `StartGranted`, `StartDeniedChangesNothing`) |
| `VideoInterview.ClassifierLoaded` | src/components/VideoInterview.tsx:73-105 | the end of the classifier load changes no state, and shows a toast exactly when the load failed (`ClassifierFailureKeepsRecording`) |
| `VideoInterview.Stop` | src/components/VideoInterview.tsx:108-122 | after a stop no stream is held and, in a session that records exactly while it holds a stream, recording has ended; time, start instant and label are kept; a toast is shown exactly when a stream was held (`StopReleases`, `StopWithoutStream`) |
| `VideoInterview.HasStart` | src/components/VideoInterview.tsx:61 | the tick's guard passes exactly when the start instant is non-null and non-zero (JavaScript truthiness): null and 0 both fail it |
| `VideoInterview.Elapsed` | src/components/VideoInterview.tsx:62 | the elapsed time is the whole seconds from start to now rounded down, non-negative once now >= start |
| `VideoInterview.Tick` | src/components/VideoInterview.tsx:60-65 | a tick changes at most `time`, and changes it only when the start instant is truthy (`TickSetsElapsed`, `TickWithoutStart`) |
| `VideoInterview.Analyze` | src/components/VideoInterview.tsx:89-92 | the analysis step changes at most the label, and an output that is not an array changes nothing (`AnalyzeAdoptsOnlyWellFormed`) |
| `VideoInterview.TopLabel` | src/components/VideoInterview.tsx:90 | a label is produced exactly when the output is a non-empty array whose first entry has a label, and it is that entry's label |
| `VideoInterview.StartGranted` | src/components/VideoInterview.tsx:52-70 | a granted capture gives exactly: recording, holding the stream, time 0, start = now, the label unchanged, and the "Interview Started" toast |
| `VideoInterview.StartDeniedChangesNothing` | src/components/VideoInterview.tsx:48-104 | a denied capture changes no state field and shows only the camera error toast |
| `VideoInterview.ClassifierFailureKeepsRecording` | src/components/VideoInterview.tsx:56-104 | if loading the classifier throws after a granted start, the state is unchanged and still recording; the toasts are "started" then the camera error toast |
| `VideoInterview.StopWhileClassifierLoads` | src/components/VideoInterview.tsx:67-122 | a stop during the classifier load leaves the session stopped whatever the load's outcome, and the "completed" toast comes before any classifier error toast |
| `VideoInterview.StopReleases` | src/components/VideoInterview.tsx:109-120 | with a stream held, stop clears the stream and the recording flag, keeps time, start and label, and shows the duration as `formatTime(time)` |
| `VideoInterview.StopWithoutStream` | src/components/VideoInterview.tsx:109 | with no stream, stop changes nothing and shows nothing |
| `VideoInterview.StopIdempotent` | src/components/VideoInterview.tsx:108-122 | stopping twice equals stopping once, and the second stop shows no toast |
| `VideoInterview.RecordingIffStreamPreserved` | src/components/VideoInterview.tsx:10-122 | "recording exactly while a stream is held" holds initially and is kept by start (either outcome), the end of the classifier load, stop, the tick and the analysis step |
| `VideoInterview.TickSetsElapsed` | src/components/VideoInterview.tsx:60-65 | with a truthy start instant the tick changes only `time`, to the floored whole seconds since start |
| `VideoInterview.TickWithoutStart` | src/components/VideoInterview.tsx:61 | with a null or zero start instant the tick changes nothing |
| `VideoInterview.ElapsedMonotone` | src/components/VideoInterview.tsx:62 | the elapsed seconds do not decrease as now increases |
| `VideoInterview.TickMonotone` | src/components/VideoInterview.tsx:60-65 | successive ticks with a non-decreasing clock give a non-decreasing `time` |
| `VideoInterview.AnalyzeAdoptsOnlyWellFormed` | src/components/VideoInterview.tsx:89-92 | the analysis step changes only the label; the new label is the first entry's label when the output is a non-empty array whose first entry has a label, and otherwise the old label |
| `VideoInterview.StopKeepsLastTime` | src/components/VideoInterview.tsx:46-122 | after start, a tick and stop, time equals the last elapsed value and the stop toast reports it; a later start resets time to 0 |
| `VideoInterview.DeniedStartNeverTicks` | src/components/VideoInterview.tsx:46-65 | after a denied first start, ticks leave the component in its initial state |
| `VideoInterview.SessionController.constructor` | src/components/VideoInterview.tsx:10-16 | the component starts not recording, with no stream, time 0, no start instant and no label, so it records exactly while it holds a stream |
| `VideoInterview.SessionController.StartInterview` | src/components/VideoInterview.tsx:46-71 | updating the fields in place performs exactly `Start`, returns its toasts, and keeps "recording exactly while a stream is held" |
| `VideoInterview.SessionController.FinishStart` | src/components/VideoInterview.tsx:73-105 | after the classifier load settles the state is untouched, the toasts are those of `ClassifierLoaded`, and the analysis interval is registered exactly when the load succeeded |
| `VideoInterview.SessionController.StopInterview` | src/components/VideoInterview.tsx:108-122 | updating the fields in place performs exactly `Stop`, returns its toasts, and keeps "recording exactly while a stream is held" |
| `VideoInterview.SessionController.TickElapsed` | src/components/VideoInterview.tsx:60-65 | updating `time` in place performs exactly `Tick` and keeps "recording exactly while a stream is held" |
| `VideoInterview.SessionController.AnalyzeFrame` | src/components/VideoInterview.tsx:89-92 | updating `analysis` in place performs exactly `Analyze` and keeps "recording exactly while a stream is held" |

## Left out

- Media tracks: `getUserMedia` is an input. Stopping the stream's tracks and binding it to the `<video>` element (src/components/VideoInterview.tsx:48-55, 110) are browser I/O.
- Frame capture: the canvas, `drawImage` and `toDataURL` (src/components/VideoInterview.tsx:82-88) are browser I/O. The `videoRef.current` and `ctx` checks are DOM conditions, so `AnalyzeFrame` models a firing in which both exist.
- The classifier: the Hugging Face `pipeline` and its inference (src/components/VideoInterview.tsx:73-77, 89) are a foreign library. Whether loading succeeds and what it returns are inputs.
- Timers: `setInterval`/`clearInterval` and the duplicate timer of the effect at src/components/VideoInterview.tsx:31-44 are left out. So are the analysis interval that is never cleared (its cleanup, returned at line 97, is discarded) and overlapping analysis ticks. These are timing and concurrency matters. `TickElapsed` and `AnalyzeFrame` model one firing each, and when they fire is up to the caller. In particular the model does not capture that `stopInterview` clears the elapsed-time interval held in `intervalRef.current` (src/components/VideoInterview.tsx:114-116): `Stop` keeps `startTime`, so a `Tick` after `Stop` would still rewrite `time`, and `StopKeepsLastTime` describes runs with no tick after the stop. The effect cleanups at lines 24-26 and 40-42 also clear the ref; whether an elapsed-time interval outlives a stop depends on when React runs those effects, which the model does not decide. The analysis interval is never cleared, so an analysis firing after a stop can still write the label, as `Analyze` allows.
- The effect cleanup on stream change (src/components/VideoInterview.tsx:18-28) only stops tracks and clears a timer, so it is left out for the same reasons.
- VideoInterview.Start: the first suspension, `await getUserMedia(...)` (line 48), is not split; a start is one step up to the classifier load, so a stop or a second start running while the camera request is pending is not modelled. The second suspension, the classifier load at line 73, is modelled by the separate `ClassifierLoaded` step.
- Clocks and locale: `Date.now()` and `toLocaleTimeString()` are parameters.
- Toasts are returned as values (title, description, error variant), not displayed. `console.error` and all JSX rendering are left out.
- Number representation: JavaScript numbers are doubles, and the model uses unbounded integers. Durations are whole seconds well within the range where `toString` writes plain decimal digits.
- RecruitmentOfficer (a notes text field and a "saved" toast), AIAvatar, VideoDisplay, VideoControls and the Index page are rendering only, with nothing to state.
