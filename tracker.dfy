/** The bad-posture timer of the browser client (frontend/app.js, updateUI): two nullable
    timestamps, in milliseconds, updated by each classification response. */
module Tracker {
  import opened Options
  import Overlay
  import Backend

  /** Both the streak length that triggers an alert and the minimum spacing of alerts. */
  const ALERT_THRESHOLD: int := 10000

  /** The two module-level variables of the client. */
  datatype Session = Session(badPostureStartTime: Option<int>, lastAlertTime: Option<int>)

  const INITIAL: Session := Session(None, None)

  /** JavaScript truthiness of a nullable timestamp: `null` and `0` are both false. */
  predicate IsSet(t: Option<int>) {
    t.Some? && t.value != 0
  }

  /** The "Bad Posture Time" element after one response: left as it was, hidden, or shown
      with a number of whole seconds. */
  datatype Timer = Unchanged | Hidden | Shown(seconds: int)

  /** The effect of one response: the new variables, whether the alert sound was started,
      and what became of the timer element. */
  datatype Update = Update(next: Session, alert: bool, timer: Timer)

  /** The state change for a reading that reached the timer logic. */
  function Track(s: Session, isGood: bool, now: int): (u: Update)
    ensures isGood ==> u == Update(Session(None, s.lastAlertTime), false, Hidden)
    ensures !isGood ==>
      && u.next.badPostureStartTime == (if IsSet(s.badPostureStartTime) then s.badPostureStartTime else Some(now))
      && var start := u.next.badPostureStartTime.value;
      && u.timer.Shown?
      && u.timer.seconds * 1000 <= now - start < u.timer.seconds * 1000 + 1000
      && (u.alert <==> now - start >= ALERT_THRESHOLD
                       && (!IsSet(s.lastAlertTime) || now - s.lastAlertTime.value >= ALERT_THRESHOLD))
      && u.next.lastAlertTime == (if u.alert then Some(now) else s.lastAlertTime)
  {
    if isGood then Update(Session(None, s.lastAlertTime), false, Hidden)
    else
      var start := if IsSet(s.badPostureStartTime) then s.badPostureStartTime.value else now;
      // Math.floor of a quotient by a positive divisor: Dafny's `/` rounds the same way.
      var duration := (now - start) / 1000;
      var alert := duration >= ALERT_THRESHOLD / 1000
                   && (!IsSet(s.lastAlertTime) || now - s.lastAlertTime.value >= ALERT_THRESHOLD);
      Update(Session(Some(start), if alert then Some(now) else s.lastAlertTime), alert, Shown(duration))
  }

  /** The state change for a whole response: an error, or a reading whose overlay drawing
      throws before the timer logic is reached, changes neither variable nor the timer. */
  function Apply(s: Session, response: Backend.Response, now: int): (u: Update)
    ensures response.ErrorResponse? ==> u == Update(s, false, Unchanged)
    ensures response.PostureResponse? && Overlay.ConnectionsThrow(response.landmarks) ==> u == Update(s, false, Unchanged)
    ensures response.PostureResponse? && !Overlay.ConnectionsThrow(response.landmarks) ==> u == Track(s, response.isGood, now)
  {
    match response
    case ErrorResponse(_) => Update(s, false, Unchanged)
    case PostureResponse(_, _, isGood, landmarks) =>
      if Overlay.ConnectionsThrow(landmarks) then Update(s, false, Unchanged) else Track(s, isGood, now)
  }

  /** One response delivered at time `now` (milliseconds since the epoch). */
  datatype Event = Event(response: Backend.Response, now: int)

  /** What a sequence of responses leaves behind: the final variables, the times at which
      alerts fired, and the timer values shown, all in order. */
  datatype Trace = Trace(final: Session, alerts: seq<int>, timers: seq<int>)

  function Run(s: Session, events: seq<Event>): Trace
    decreases |events|
  {
    if events == [] then Trace(s, [], [])
    else
      var u := Apply(s, events[0].response, events[0].now);
      var rest := Run(u.next, events[1..]);
      Trace(rest.final,
            (if u.alert then [events[0].now] else []) + rest.alerts,
            (if u.timer.Shown? then [u.timer.seconds] else []) + rest.timers)
  }

  /** Consecutive alert times are at least ALERT_THRESHOLD apart. */
  predicate Spaced(alerts: seq<int>) {
    forall i :: 0 <= i < |alerts| - 1 ==> alerts[i] + ALERT_THRESHOLD <= alerts[i + 1]
  }

  predicate ClockPositive(events: seq<Event>) {
    forall i :: 0 <= i < |events| ==> events[i].now > 0
  }

  predicate ClockMonotone(events: seq<Event>) {
    forall i, j :: 0 <= i <= j < |events| ==> events[i].now <= events[j].now
  }

  /** Whether a response is a good reading (which ends a streak). */
  predicate IsGoodReading(response: Backend.Response) {
    response.PostureResponse? && response.isGood
  }

  /** Alerts are at least ten seconds apart over any sequence of responses, and the first
      is at least ten seconds after any earlier alert recorded in the session. Good
      readings do not clear `lastAlertTime`, so the spacing holds across streaks too. */
  lemma {:induction false} AlertsSpaced(s: Session, events: seq<Event>)
    requires ClockPositive(events)
    ensures Spaced(Run(s, events).alerts)
    ensures IsSet(s.lastAlertTime) && Run(s, events).alerts != [] ==>
      s.lastAlertTime.value + ALERT_THRESHOLD <= Run(s, events).alerts[0]
    decreases |events|
  {
    if events != [] {
      var u := Apply(s, events[0].response, events[0].now);
      assert ClockPositive(events[1..]) by {
        forall i | 0 <= i < |events[1..]| ensures events[1..][i].now > 0 {
          assert events[1..][i] == events[i + 1];
        }
      }
      AlertsSpaced(u.next, events[1..]);
      var rest := Run(u.next, events[1..]).alerts;
      if u.alert {
        assert u.next.lastAlertTime == Some(events[0].now) && IsSet(u.next.lastAlertTime);
        assert Run(s, events).alerts == [events[0].now] + rest;
      } else {
        assert u.next.lastAlertTime == s.lastAlertTime;
        assert Run(s, events).alerts == rest;
      }
    }
  }

  /** From a fresh session, any two consecutive alerts are at least ten seconds apart. */
  lemma SessionAlertsSpaced(events: seq<Event>)
    requires ClockPositive(events)
    ensures Spaced(Run(INITIAL, events).alerts)
  {
    AlertsSpaced(INITIAL, events);
  }

  /** An alert fires only once the streak is at least ten seconds old, and then records
      its own time as the last alert. */
  lemma AlertOnlyAfterThreshold(s: Session, response: Backend.Response, now: int)
    requires Apply(s, response, now).alert
    ensures response.PostureResponse? && !response.isGood
    ensures IsSet(s.badPostureStartTime)
    ensures now - s.badPostureStartTime.value >= ALERT_THRESHOLD
    ensures Apply(s, response, now).next.lastAlertTime == Some(now)
  {
  }

  /** While bad posture persists, alerts repeat: after an alert at `now`, the next bad
      reading ten seconds or more later alerts again. */
  lemma AlertsRepeat(s: Session, now: int, later: int)
    requires Track(s, false, now).alert
    requires later >= now + ALERT_THRESHOLD
    ensures Track(Track(s, false, now).next, false, later).alert
  {
  }

  /** Within a streak the start time never moves: errors, aborted drawings and bad readings
      all keep a set `badPostureStartTime`. */
  lemma {:induction false} StreakStartFixed(s: Session, events: seq<Event>)
    requires IsSet(s.badPostureStartTime)
    requires forall i :: 0 <= i < |events| ==> !IsGoodReading(events[i].response)
    ensures Run(s, events).final.badPostureStartTime == s.badPostureStartTime
    decreases |events|
  {
    if events != [] {
      var u := Apply(s, events[0].response, events[0].now);
      assert u.next.badPostureStartTime == s.badPostureStartTime;
      forall i | 0 <= i < |events[1..]| ensures !IsGoodReading(events[1..][i].response) {
        assert events[1..][i] == events[i + 1];
      }
      StreakStartFixed(u.next, events[1..]);
    }
  }

  /** A streak is anchored at its first bad reading: once a bad reading at `now > 0` has been
      applied with no streak running, the start stays `now` until a good reading. */
  lemma StreakAnchoredAtFirstBad(s: Session, first: Event, events: seq<Event>)
    requires !IsSet(s.badPostureStartTime)
    requires first.response.PostureResponse? && !first.response.isGood
    requires !Overlay.ConnectionsThrow(first.response.landmarks)
    requires first.now > 0
    requires forall i :: 0 <= i < |events| ==> !IsGoodReading(events[i].response)
    ensures Run(s, [first] + events).final.badPostureStartTime == Some(first.now)
  {
    var u := Apply(s, first.response, first.now);
    assert ([first] + events)[1..] == events;
    StreakStartFixed(u.next, events);
  }

  /** A good reading ends the streak and hides the timer, but keeps the time of the last
      alert. */
  lemma GoodReadingResets(s: Session, response: Backend.Response, now: int)
    requires IsGoodReading(response) && !Overlay.ConnectionsThrow(response.landmarks)
    ensures Apply(s, response, now).next == Session(None, s.lastAlertTime)
    ensures !Apply(s, response, now).alert && Apply(s, response, now).timer == Hidden
  {
  }

  /** With a clock that never runs backwards and a streak that did not start in the
      future, every timer value shown is non-negative. */
  lemma {:induction false} TimersNonNegative(s: Session, events: seq<Event>)
    requires ClockMonotone(events)
    requires IsSet(s.badPostureStartTime) && events != [] ==> s.badPostureStartTime.value <= events[0].now
    ensures forall i :: 0 <= i < |Run(s, events).timers| ==> Run(s, events).timers[i] >= 0
    decreases |events|
  {
    if events != [] {
      var u := Apply(s, events[0].response, events[0].now);
      assert ClockMonotone(events[1..]) by {
        forall i, j | 0 <= i <= j < |events[1..]| ensures events[1..][i].now <= events[1..][j].now {
          assert events[1..][i] == events[i + 1] && events[1..][j] == events[j + 1];
        }
      }
      if |events| > 1 {
        assert events[1..][0] == events[1];
        assert events[0].now <= events[1].now;
      }
      TimersNonNegative(u.next, events[1..]);
    }
  }

  /** What the page shows after one response. */
  datatype Screen =
    | ErrorShown(message: string)
      // the status was written, then the overlay threw a TypeError: it escapes updateUI
      // and the timer logic is skipped
    | DrawingFailed(status: string, isGood: bool, overlay: seq<Overlay.DrawCommand>)
    | ReadingShown(status: string, isGood: bool, overlay: seq<Overlay.DrawCommand>, timer: Timer, alert: bool)

  /** The client's two timestamps and updateUI. */
  class PostureTracker {
    var badPostureStartTime: Option<int>
    var lastAlertTime: Option<int>

    function State(): Session
      reads this
    {
      Session(badPostureStartTime, lastAlertTime)
    }

    constructor ()
      ensures State() == INITIAL
    {
      badPostureStartTime := None;
      lastAlertTime := None;
    }

    /** Handle one response received at time `now`, with a video of the given size. */
    method UpdateUI(data: Backend.Response, now: int, width: nat, height: nat) returns (screen: Screen)
      modifies this
      ensures State() == Apply(old(State()), data, now).next
      ensures data.ErrorResponse? ==> screen == ErrorShown(data.error) && State() == old(State())
      ensures data.PostureResponse? ==>
        var drawing := Overlay.PoseOverlay(data.landmarks, width, height);
        var u := Track(old(State()), data.isGood, now);
        if drawing.threw then screen == DrawingFailed(data.status, data.isGood, drawing.commands) && State() == old(State())
        else screen == ReadingShown(data.status, data.isGood, drawing.commands, u.timer, u.alert)
    {
      match data {
        case ErrorResponse(message) =>
          return ErrorShown(message);
        case PostureResponse(_, status, isGood, landmarks) =>
          var drawing := Overlay.DrawPoseMarkers(landmarks, width, height);
          Overlay.ThrowIndependentOfSize(landmarks, Overlay.CONNECTIONS, width, height, 0, 0);
          if drawing.threw {
            return DrawingFailed(status, isGood, drawing.commands);
          }
          var alert := false;
          var timer: Timer;
          if !isGood {
            if !IsSet(badPostureStartTime) {
              badPostureStartTime := Some(now);
            }
            var duration := (now - badPostureStartTime.value) / 1000;
            timer := Shown(duration);
            if duration >= ALERT_THRESHOLD / 1000 {
              if !IsSet(lastAlertTime) || now - lastAlertTime.value >= ALERT_THRESHOLD {
                alert := true;  // playAlert()
                lastAlertTime := Some(now);
              }
            }
          } else {
            badPostureStartTime := None;
            timer := Hidden;
          }
          screen := ReadingShown(status, isGood, drawing.commands, timer, alert);
      }
    }
  }
}
