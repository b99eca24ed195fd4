# Posture monitor: bad-posture timer, pose overlay and classifier

This project models the logic at the heart of a webcam posture monitor. The browser client
(`frontend/app.js`) sends a frame every second to a server (`backend/main.py`). The server
classifies the neck angle as good or bad posture and returns the detected pose landmarks. The
client then draws the pose over the video and runs a timer over consecutive bad readings: it
plays an alert sound once bad posture has lasted ten seconds, and again at most every ten
seconds after that. A stand-alone desktop script (`bad_posture.py`) runs the same streak timer with a
[65, 100] band, and records an alert only when the sound actually played.

Modules, one per component:

- `Options` (options.dfy): the `Option` datatype used for nullable timestamps.
- `Pose` (pose.dfy): landmarks as the pose estimator yields them and as the server
  serialises them.
- `Backend` (backend.dfy): the stateless classifier `check_posture` (good iff
  `60 <= -angle <= 80`) and the response built by `process_image`.
- `Overlay` (overlay.dfy): `drawPoseMarkers` and `drawConnections`. The canvas is the list of
  drawing commands issued to it.
- `Tracker` (tracker.dfy): `updateUI` and the two module-level variables
  `badPostureStartTime` and `lastAlertTime`, as the class `PostureTracker`. The pure function
  `Apply` specifies one update, and `Run` folds it over a sequence of responses.
- `Standalone` (standalone.dfy): `check_posture` of the desktop script and its two globals,
  as the class `PostureChecker`, specified by the pure function `Step`.

Modelling choices:

- The floating-point numbers of JavaScript and Python (angles, coordinates, visibilities) are
  exact `real`s. Only the scaled coordinates (`x * width`, app.js:102-103 and 143-144) differ:
  the source rounds them, the model keeps them exact. No comparison depends on this.
- Times in the browser client are integers, in milliseconds since the epoch. Each update reads
  the clock once (`now`). The source calls `Date.now()` up to four times in one update; the
  model treats all of those reads as the same instant.
- The client tests its timestamps with JavaScript truthiness (`!badPostureStartTime`). So a
  timestamp of `0` counts as unset, just like `null`. `Tracker.IsSet` models this exactly. The
  trace lemmas therefore assume a positive clock, which `Date.now()` always is.
- `Math.floor((now - start) / 1000)` is Dafny's `/`. Both round towards negative infinity when
  the divisor is positive.
- The client reads the server's response directly (`Backend.Response`). A success response
  always carries a landmark array, and an array is truthy even when empty. So
  `drawPoseMarkers` runs on every reading.
- `drawConnections` reads indices up to 16. On a shorter list, reading `visibility` of a
  missing landmark throws a `TypeError`. Because `&&` short-circuits, this happens only when
  the first index is missing, or when the first end is visible and the second index is
  missing. The throw leaves `updateUI` before the timer logic, and `sendFrame` catches it. So
  such a reading leaves both timestamps unchanged. The model captures all of this:
  `Overlay.ConnectionsOf` with `threw`, and `Tracker.Apply`.
- A good reading clears only `badPostureStartTime`, not `lastAlertTime` (app.js:74-77).
- The angle bands and the ten-second interval are constants, with no way to configure them.
- The "Bad Posture Time" element has three outcomes per response (`Tracker.Timer`): a good
  reading hides it, a bad reading shows the streak length, and an error or a drawing that
  throws leaves it as it was.
- The desktop script measures time in seconds, as `real`. Whether `playsound` succeeds is an
  input (`playbackSucceeds`). The exception handler's report is not modelled.

## Model

| member | source | states |
|---|---|---|
| `Backend.CheckPosture` | backend/main.py:87-92 | good iff the negated angle is in [60, 80], both bounds inclusive; good iff the status is "Good Posture"; the only other status is "Bad Posture! Please sit straight" |
| `Backend.ToRecord` | backend/main.py:57-62 | a serialised landmark copies x, y, z and visibility unchanged |
| `Backend.SerializeLandmarks` | backend/main.py:55-62 | the landmark list has the same length and order as the detection, and each entry copies its four fields |
| `Backend.ProcessImage` | backend/main.py:47-71 | exactly `{"error": "No pose detected"}` when no pose is found; otherwise the angle, the status and `is_good` that `check_posture` gives for that same angle, and the copied landmark list |
| `Overlay.ThrowIndependentOfSize` | frontend/app.js:137-147 | whether drawing the connections throws does not depend on the canvas size |
| `Overlay.DrawPairs` | frontend/app.js:137-147 | the connection loop issues, in pair order, a line for each pair whose ends are both visible, and stops where a missing landmark is read |
| `Overlay.DrawConnections` | frontend/app.js:117-148 | drawConnections equals the connection drawing of the seven fixed pairs |
| `Overlay.DrawPoseMarkers` | frontend/app.js:85-115 | the canvas is cleared at its full size, then every visible landmark gets a marker in list order, then the connections are drawn |
| `Overlay.MarkersExact` | frontend/app.js:98-111 | a marker is drawn exactly for each landmark with visibility above 0.5, at (x * width, y * height) |
| `Overlay.MarkersConcat` | frontend/app.js:98-111 | markers follow list order: the markers of a concatenation are those of its parts, one after the other |
| `Overlay.ConnectionsInRange` | frontend/app.js:137-147 | when every pair index is inside the list, nothing throws, at most `|pairs|` lines are drawn in total, and a line is present exactly when it is the segment of a pair with both ends visible |
| `Overlay.ConnectionsConcat` | frontend/app.js:137-147 | lines keep pair order: when the front pairs do not throw, the drawing of front + back is the front's lines followed by the back's, with the back's throw outcome |
| `Overlay.OnePair` | frontend/app.js:141-146 | a pair that does not throw draws exactly one line when both ends are visible and none otherwise |
| `Overlay.SkeletonDrawn` | frontend/app.js:119-147 | with at least 17 landmarks, the seven fixed pairs never throw, and a line is drawn exactly for each pair whose two ends are visible, scaled by width and height |
| `Overlay.NoShoulderThrows` | frontend/app.js:119-141 | with 11 or fewer landmarks, the first pair (11, 12) throws before any line is drawn |
| `Tracker.Track` | frontend/app.js:59-77 | a good reading clears the streak start, keeps `lastAlertTime` and hides the timer element. A bad reading sets the streak start only if it was unset. The timer element shows the floor of the streak length in seconds. An alert fires iff the streak is at least 10 000 ms old and there was no earlier alert or it was at least 10 000 ms ago; when it fires, `lastAlertTime` becomes `now` |
| `Tracker.Apply` | frontend/app.js:42-77 | an error response changes neither timestamp, fires no alert and leaves the timer element as it was; so does a reading whose overlay throws; any other reading is a `Track` step |
| `Tracker.AlertsSpaced` | frontend/app.js:68-72 | over any sequence of responses with a positive clock, consecutive alerts are at least 10 000 ms apart, and the first is at least 10 000 ms after the alert already recorded |
| `Tracker.SessionAlertsSpaced` | frontend/app.js:1-3 | from the initial null/null state, consecutive alerts are at least 10 000 ms apart |
| `Tracker.AlertOnlyAfterThreshold` | frontend/app.js:59-72 | an alert comes only from a bad reading in a streak already running for at least 10 000 ms, and records `now` |
| `Tracker.AlertsRepeat` | frontend/app.js:68-72 | after an alert, a bad reading of the same streak 10 000 ms or more later alerts again |
| `Tracker.StreakStartFixed` | frontend/app.js:59-62 | errors, failed drawings and bad readings never move a streak start that is already set |
| `Tracker.StreakAnchoredAtFirstBad` | frontend/app.js:59-62 | the streak start is the time of its first bad reading until a good reading |
| `Tracker.GoodReadingResets` | frontend/app.js:74-77 | a good reading sets the streak start to null, leaves `lastAlertTime` unchanged, fires no alert and hides the timer |
| `Tracker.TimersNonNegative` | frontend/app.js:64 | when the clock never runs backwards, every displayed duration is non-negative |
| `Tracker.PostureTracker.constructor` | frontend/app.js:1-2 | both timestamps start null |
| `Tracker.PostureTracker.UpdateUI` | frontend/app.js:37-78 | the new timestamps are those of `Apply`; an error shows its message and changes nothing; otherwise the status is written and the overlay drawn first, and a throw there skips the timer logic; else the status, the timer element and whether `playAlert` ran are those of `Track` |
| `Standalone.Step` | bad_posture.py:34-53 | "Good Posture" iff the negated angle is in [65, 100], else "Bad Posture! Please sit straight". A good reading clears the streak start and keeps `last_alert_time`. The first bad reading of a streak sets the start to `now` and tries no alert. Later bad readings try one iff 10 s have passed since the start and since the last alert, if there was one. `last_alert_time` changes only when playback succeeds |
| `Standalone.PlayedAlertsSpaced` | bad_posture.py:45-52 | the alerts that played are at least 10 s apart over any sequence of calls |
| `Standalone.FirstBadReadingSilent` | bad_posture.py:42-43 | the reading that starts a streak sets its start to `now` and never tries an alert |
| `Standalone.AttemptOnlyAfterThreshold` | bad_posture.py:44-47 | an alert is tried only in a running streak at least 10 s old |
| `Standalone.FailedPlaybackRetried` | bad_posture.py:48-52 | a failed playback leaves both globals unchanged, so the next bad reading at the same time or later tries again |
| `Standalone.StreakStartFixed` | bad_posture.py:42-45 | within a streak, `bad_posture_start_time` is never refreshed |
| `Standalone.BandsDiffer` | bad_posture.py:36-37 | the desktop band [65, 100] and the server band [60, 80] differ: -62 is good only on the server, -90 only on the desktop, and both agree exactly on [65, 80] |
| `Standalone.PostureChecker.constructor` | bad_posture.py:18-19 | both globals start as None |
| `Standalone.PostureChecker.CheckPosture` | bad_posture.py:34-53 | the new globals, the returned status and whether the sound played are those of `Step` |

## Left out

- `startWebcam`, `sendFrame` and the frame capture, JPEG encoding and upload (frontend/app.js:5-35): browser and network I/O. The client posts to `/process-image/`, but the server mounts the route under `/api`. This is wiring, not logic.
- `setInterval(sendFrame, 1000)` and the start button (frontend/app.js:150-153): timer and event wiring. The code has no stop and no policy for overlapping requests.
- `playAlert` and `playsound`: audio. In the client an alert is the `alert` flag; in the desktop script, success is an input.
- `calculate_neck_angle` in both Python files: floating-point `atan2`/`degrees` over estimator output. The angle is an input (`Detection.neckAngle`, `Reading.angle`).
- Pose estimation, image decoding, OpenCV drawing and display, and the capture loop of the desktop script (bad_posture.py:55-96): foreign libraries and device I/O.
- The FastAPI application, CORS, static file serving and the frontend directory check (backend/main.py:13-33, 94-102): framework set-up.
- DOM text and CSS class updates in `updateUI`: the model exposes only the status, the timer value and the overlay commands. The angle text and the marker and line colours, widths and arc angles are not modelled.
- An error response whose `error` string is empty: JavaScript would treat it as no error. The server only ever sends "No pose detected".
- Statelessness of the server's `check_posture` needs no lemma: a Dafny function always gives the same result for the same angle.
- A configuration channel for the angle bounds and the alert interval: the code has none, so the values are constants.
