/** The stand-alone desktop checker (bad_posture.py, check_posture): the same streak timer
    kept in two globals, with a [65, 100] band, times in seconds, and an alert recorded only
    when the sound actually played. */
module Standalone {
  import opened Options
  import Backend

  /** Streak length before an alert, and minimum spacing of alerts, in seconds. */
  const ALERT_THRESHOLD: real := 10.0

  const GOOD_STATUS: string := "Good Posture"
  const BAD_STATUS: string := "Bad Posture! Please sit straight"

  /** The good band of the negated neck angle, in degrees, both bounds inclusive. */
  const MIN_GOOD_ANGLE: real := 65.0
  const MAX_GOOD_ANGLE: real := 100.0

  /** The two globals `bad_posture_start_time` and `last_alert_time`. */
  datatype Monitor = Monitor(badPostureStartTime: Option<real>, lastAlertTime: Option<real>)

  const INITIAL: Monitor := Monitor(None, None)

  predicate IsGoodAngle(angle: real) {
    MIN_GOOD_ANGLE <= -angle <= MAX_GOOD_ANGLE
  }

  /** The effect of one call: the new globals, the status returned, whether the sound was
      attempted, and whether it played (only then is the alert recorded). */
  datatype Check = Check(next: Monitor, status: string, attempted: bool, played: bool)

  /** One call of check_posture at time `now`; `playbackSucceeds` says whether playing the sound would
      succeed (a failure raises an exception that the call catches and reports). */
  function Step(m: Monitor, angle: real, now: real, playbackSucceeds: bool): (c: Check)
    ensures c.status == GOOD_STATUS <==> IsGoodAngle(angle)
    ensures c.status == GOOD_STATUS || c.status == BAD_STATUS
    ensures IsGoodAngle(angle) ==> c.next == Monitor(None, m.lastAlertTime) && !c.attempted
    ensures !IsGoodAngle(angle) && m.badPostureStartTime.None? ==> c.next == Monitor(Some(now), m.lastAlertTime) && !c.attempted
    ensures !IsGoodAngle(angle) && m.badPostureStartTime.Some? ==>
      && c.next.badPostureStartTime == m.badPostureStartTime
      && (c.attempted <==> now - m.badPostureStartTime.value >= ALERT_THRESHOLD
                           && (m.lastAlertTime.None? || now - m.lastAlertTime.value >= ALERT_THRESHOLD))
    ensures c.played <==> c.attempted && playbackSucceeds
    ensures c.next.lastAlertTime == if c.played then Some(now) else m.lastAlertTime
  {
    if IsGoodAngle(angle) then Check(Monitor(None, m.lastAlertTime), GOOD_STATUS, false, false)
    else if m.badPostureStartTime.None? then Check(Monitor(Some(now), m.lastAlertTime), BAD_STATUS, false, false)
    else
      var duration := now - m.badPostureStartTime.value;
      var attempt := duration >= ALERT_THRESHOLD
                     && (m.lastAlertTime.None? || now - m.lastAlertTime.value >= ALERT_THRESHOLD);
      var played := attempt && playbackSucceeds;
      Check(Monitor(m.badPostureStartTime, if played then Some(now) else m.lastAlertTime), BAD_STATUS, attempt, played)
  }

  /** One call of check_posture: the neck angle, the clock reading, and the outcome of
      playing the sound should it be tried. */
  datatype Reading = Reading(angle: real, now: real, playbackSucceeds: bool)

  /** The final globals, and the times of the alerts that played, over a run of calls. */
  datatype Trace = Trace(final: Monitor, played: seq<real>)

  function Run(m: Monitor, readings: seq<Reading>): Trace
    decreases |readings|
  {
    if readings == [] then Trace(m, [])
    else
      var c := Step(m, readings[0].angle, readings[0].now, readings[0].playbackSucceeds);
      var rest := Run(c.next, readings[1..]);
      Trace(rest.final, (if c.played then [readings[0].now] else []) + rest.played)
  }

  predicate Spaced(times: seq<real>) {
    forall i :: 0 <= i < |times| - 1 ==> times[i] + ALERT_THRESHOLD <= times[i + 1]
  }

  /** The alerts that actually played are at least ten seconds apart, and the first is at
      least ten seconds after any alert recorded before the run. */
  lemma {:induction false} PlayedAlertsSpaced(m: Monitor, readings: seq<Reading>)
    decreases |readings|
    ensures Spaced(Run(m, readings).played)
    ensures m.lastAlertTime.Some? && Run(m, readings).played != [] ==>
      m.lastAlertTime.value + ALERT_THRESHOLD <= Run(m, readings).played[0]
  {
    if readings != [] {
      var r := readings[0];
      var c := Step(m, r.angle, r.now, r.playbackSucceeds);
      PlayedAlertsSpaced(c.next, readings[1..]);
      var rest := Run(c.next, readings[1..]).played;
      if c.played {
        assert Run(m, readings).played == [r.now] + rest;
      } else {
        assert Run(m, readings).played == rest;
      }
    }
  }

  /** The reading that starts a streak never tries to alert, whatever the time. */
  lemma FirstBadReadingSilent(m: Monitor, angle: real, now: real, playbackSucceeds: bool)
    requires m.badPostureStartTime.None? && !IsGoodAngle(angle)
    ensures !Step(m, angle, now, playbackSucceeds).attempted
    ensures Step(m, angle, now, playbackSucceeds).next.badPostureStartTime == Some(now)
  {
  }

  /** An alert is tried only ten seconds or more into a streak that was already running. */
  lemma AttemptOnlyAfterThreshold(m: Monitor, angle: real, now: real, playbackSucceeds: bool)
    requires Step(m, angle, now, playbackSucceeds).attempted
    ensures !IsGoodAngle(angle) && m.badPostureStartTime.Some?
    ensures now - m.badPostureStartTime.value >= ALERT_THRESHOLD
  {
  }

  /** A failed playback records nothing, so the next bad reading of the streak, at the same
      time or later, tries again. */
  lemma FailedPlaybackRetried(m: Monitor, angle: real, now: real, angle': real, later: real, playbackSucceeds': bool)
    requires Step(m, angle, now, false).attempted
    requires !IsGoodAngle(angle') && later >= now
    ensures Step(m, angle, now, false).next == m
    ensures Step(Step(m, angle, now, false).next, angle', later, playbackSucceeds').attempted
  {
  }

  /** Within a streak (no good angle), `bad_posture_start_time`, once set, never changes. */
  lemma {:induction false} StreakStartFixed(m: Monitor, readings: seq<Reading>)
    decreases |readings|
    requires m.badPostureStartTime.Some?
    requires forall i :: 0 <= i < |readings| ==> !IsGoodAngle(readings[i].angle)
    ensures Run(m, readings).final.badPostureStartTime == m.badPostureStartTime
  {
    if readings != [] {
      var r := readings[0];
      var c := Step(m, r.angle, r.now, r.playbackSucceeds);
      forall i | 0 <= i < |readings[1..]| ensures !IsGoodAngle(readings[1..][i].angle) {
        assert readings[1..][i] == readings[i + 1];
      }
      StreakStartFixed(c.next, readings[1..]);
    }
  }

  /** The desktop checker and the server disagree on the good band: the server's is
      [60, 80], this one's [65, 100]. */
  lemma BandsDiffer()
    ensures Backend.CheckPosture(-62.0).isGood && !IsGoodAngle(-62.0)
    ensures !Backend.CheckPosture(-90.0).isGood && IsGoodAngle(-90.0)
    ensures forall angle: real :: Backend.CheckPosture(angle).isGood && IsGoodAngle(angle) <==> 65.0 <= -angle <= 80.0
  {
  }

  /** The module's two globals and check_posture. */
  class PostureChecker {
    var badPostureStartTime: Option<real>
    var lastAlertTime: Option<real>

    function State(): Monitor
      reads this
    {
      Monitor(badPostureStartTime, lastAlertTime)
    }

    constructor ()
      ensures State() == INITIAL
    {
      badPostureStartTime := None;
      lastAlertTime := None;
    }

    /** check_posture at time `now`. Returns the status text and whether the sound played. */
    method CheckPosture(angle: real, now: real, playbackSucceeds: bool) returns (status: string, played: bool)
      modifies this
      ensures var c := Step(old(State()), angle, now, playbackSucceeds);
              State() == c.next && status == c.status && played == c.played
    {
      played := false;
      var negated := -angle;
      if MIN_GOOD_ANGLE <= negated <= MAX_GOOD_ANGLE {
        badPostureStartTime := None;
        return GOOD_STATUS, false;
      }
      if badPostureStartTime == None {
        badPostureStartTime := Some(now);
      } else {
        var duration := now - badPostureStartTime.value;
        if duration >= ALERT_THRESHOLD {
          if lastAlertTime == None || now - lastAlertTime.value >= ALERT_THRESHOLD {
            // playsound raises when playback fails; the handler only reports it
            if playbackSucceeds {
              played := true;
              lastAlertTime := Some(now);
            }
          }
        }
      }
      status := BAD_STATUS;
    }
  }
}
