/** The pose overlay of the browser client (frontend/app.js, drawPoseMarkers and
    drawConnections). The canvas is modelled by the sequence of drawing commands issued
    to it, in order. */
module Overlay {
  import opened Pose

  /** A landmark is drawn when its visibility is strictly above this. */
  const VISIBILITY_THRESHOLD: real := 0.5
  /** Radius, in pixels, of the marker drawn on a landmark. */
  const MARKER_RADIUS: real := 3.0

  /** The fixed skeleton: shoulders, both arms, and each ear to its shoulder. */
  const CONNECTIONS: seq<(nat, nat)> := [(11, 12), (11, 13), (13, 15), (12, 14), (14, 16), (8, 12), (7, 11)]

  datatype DrawCommand =
    | ClearRect(width: real, height: real)
    | Circle(cx: real, cy: real, radius: real)
    | Line(x1: real, y1: real, x2: real, y2: real)

  /** What reached the canvas, and whether drawing stopped on a TypeError (reading
      `visibility` of a landmark index past the end of the list). */
  datatype Drawing = Drawing(commands: seq<DrawCommand>, threw: bool)

  predicate Visible(l: Landmark) {
    l.visibility > VISIBILITY_THRESHOLD
  }

  /** The marker of one landmark, scaled to a canvas of the given pixel size. */
  function Marker(l: Landmark, width: nat, height: nat): DrawCommand {
    Circle(l.x * width as real, l.y * height as real, MARKER_RADIUS)
  }

  /** The segment between two landmarks, scaled to the canvas. */
  function Segment(start: Landmark, end: Landmark, width: nat, height: nat): DrawCommand {
    Line(start.x * width as real, start.y * height as real, end.x * width as real, end.y * height as real)
  }

  /** The markers, in list order, for the visible landmarks. */
  function Markers(landmarks: seq<Landmark>, width: nat, height: nat): seq<DrawCommand> {
    if landmarks == [] then []
    else (if Visible(landmarks[0]) then [Marker(landmarks[0], width, height)] else [])
         + Markers(landmarks[1..], width, height)
  }

  /** Whether both ends of a pair are inside the list and visible. */
  predicate Joined(landmarks: seq<Landmark>, pair: (nat, nat)) {
    pair.0 < |landmarks| && pair.1 < |landmarks| && Visible(landmarks[pair.0]) && Visible(landmarks[pair.1])
  }

  /** The segment a joined pair draws. */
  function PairSegment(landmarks: seq<Landmark>, pair: (nat, nat), width: nat, height: nat): DrawCommand
    requires pair.0 < |landmarks| && pair.1 < |landmarks|
  {
    Segment(landmarks[pair.0], landmarks[pair.1], width, height)
  }

  /** Whether processing this pair throws: its first index is past the end of the list,
      or its first end is visible and its second index is past the end (when the first end
      is not visible, `&&` never reads the second). */
  predicate PairThrows(landmarks: seq<Landmark>, pair: (nat, nat)) {
    pair.0 >= |landmarks| || (Visible(landmarks[pair.0]) && pair.1 >= |landmarks|)
  }

  /** The segments the connection loop draws for `pairs`, in order, up to the first pair
      that throws. */
  function ConnectionsOf(landmarks: seq<Landmark>, pairs: seq<(nat, nat)>, width: nat, height: nat): Drawing {
    if pairs == [] then Drawing([], false)
    else if PairThrows(landmarks, pairs[0]) then Drawing([], true)
    else
      var rest := ConnectionsOf(landmarks, pairs[1..], width, height);
      var here := if Joined(landmarks, pairs[0]) then [PairSegment(landmarks, pairs[0], width, height)] else [];
      Drawing(here + rest.commands, rest.threw)
  }

  /** Whether the connection loop throws does not depend on the canvas size. */
  lemma {:induction false} ThrowIndependentOfSize(landmarks: seq<Landmark>, pairs: seq<(nat, nat)>, width: nat, height: nat, width': nat, height': nat)
    ensures ConnectionsOf(landmarks, pairs, width, height).threw == ConnectionsOf(landmarks, pairs, width', height').threw
  {
    if pairs != [] {
      ThrowIndependentOfSize(landmarks, pairs[1..], width, height, width', height');
    }
  }

  /** Whether the connection loop over the fixed skeleton throws. */
  predicate ConnectionsThrow(landmarks: seq<Landmark>) {
    ConnectionsOf(landmarks, CONNECTIONS, 0, 0).threw
  }

  /** The whole overlay: clear the canvas, draw the markers, then the connections. */
  function PoseOverlay(landmarks: seq<Landmark>, width: nat, height: nat): Drawing {
    var connections := ConnectionsOf(landmarks, CONNECTIONS, width, height);
    Drawing([ClearRect(width as real, height as real)] + Markers(landmarks, width, height) + connections.commands,
            connections.threw)
  }

  /** Loop invariant of drawConnections: `commands` were drawn for `pairs[..k]` without a
      throw, and the rest of the drawing is that of `pairs[k..]`. */
  ghost predicate DrawnUpTo(landmarks: seq<Landmark>, pairs: seq<(nat, nat)>, k: nat, commands: seq<DrawCommand>, width: nat, height: nat)
    requires k <= |pairs|
  {
    var rest := ConnectionsOf(landmarks, pairs[k..], width, height);
    ConnectionsOf(landmarks, pairs, width, height) == Drawing(commands + rest.commands, rest.threw)
  }

  /** The pair at `k` either throws, ending the drawing there, or adds its segment (when
      both ends are visible) and the invariant moves on to `k + 1`. */
  lemma ConnectionsStep(landmarks: seq<Landmark>, pairs: seq<(nat, nat)>, k: nat, commands: seq<DrawCommand>, width: nat, height: nat)
    requires k < |pairs| && DrawnUpTo(landmarks, pairs, k, commands, width, height)
    ensures PairThrows(landmarks, pairs[k]) ==> ConnectionsOf(landmarks, pairs, width, height) == Drawing(commands, true)
    ensures !PairThrows(landmarks, pairs[k]) ==>
      DrawnUpTo(landmarks, pairs, k + 1,
                commands + (if Joined(landmarks, pairs[k]) then [PairSegment(landmarks, pairs[k], width, height)] else []),
                width, height)
  {
    assert pairs[k..][0] == pairs[k];
    assert pairs[k..][1..] == pairs[k + 1..];
    var rest := ConnectionsOf(landmarks, pairs[k + 1..], width, height);
    if !PairThrows(landmarks, pairs[k]) {
      var here := if Joined(landmarks, pairs[k]) then [PairSegment(landmarks, pairs[k], width, height)] else [];
      assert commands + (here + rest.commands) == (commands + here) + rest.commands;
    } else {
      assert commands + [] == commands;
    }
  }

  /** The loop of drawConnections over a list of index pairs: a segment for each pair
      whose ends are both visible, stopping where reading a missing landmark throws. */
  method DrawPairs(landmarks: seq<Landmark>, pairs: seq<(nat, nat)>, width: nat, height: nat) returns (drawing: Drawing)
    ensures drawing == ConnectionsOf(landmarks, pairs, width, height)
  {
    var commands: seq<DrawCommand> := [];
    var k := 0;
    assert pairs[0..] == pairs;
    assert DrawnUpTo(landmarks, pairs, 0, commands, width, height);
    while k < |pairs|
      invariant 0 <= k <= |pairs|
      invariant DrawnUpTo(landmarks, pairs, k, commands, width, height)
    {
      ConnectionsStep(landmarks, pairs, k, commands, width, height);
      var pair := pairs[k];
      if pair.0 >= |landmarks| || (landmarks[pair.0].visibility > VISIBILITY_THRESHOLD && pair.1 >= |landmarks|) {
        return Drawing(commands, true);
      }
      var start := landmarks[pair.0];
      if start.visibility > VISIBILITY_THRESHOLD && landmarks[pair.1].visibility > VISIBILITY_THRESHOLD {
        commands := commands + [PairSegment(landmarks, pair, width, height)];
      }
      k := k + 1;
    }
    assert pairs[k..] == [];
    assert commands + [] == commands;
    drawing := Drawing(commands, false);
  }

  /** drawConnections: one pass over the fixed skeleton. */
  method DrawConnections(landmarks: seq<Landmark>, width: nat, height: nat) returns (drawing: Drawing)
    ensures drawing == ConnectionsOf(landmarks, CONNECTIONS, width, height)
  {
    drawing := DrawPairs(landmarks, CONNECTIONS, width, height);
  }

  /** One step of the marker loop. */
  lemma MarkersStep(landmarks: seq<Landmark>, k: nat, width: nat, height: nat)
    requires k < |landmarks|
    ensures Markers(landmarks[k..], width, height)
      == (if Visible(landmarks[k]) then [Marker(landmarks[k], width, height)] else []) + Markers(landmarks[k + 1..], width, height)
  {
    assert landmarks[k..][0] == landmarks[k];
    assert landmarks[k..][1..] == landmarks[k + 1..];
  }

  /** drawPoseMarkers: clear the canvas (sized to the video), mark every visible landmark
      in list order, then draw the connections. */
  method DrawPoseMarkers(landmarks: seq<Landmark>, width: nat, height: nat) returns (drawing: Drawing)
    ensures drawing == PoseOverlay(landmarks, width, height)
  {
    var commands := [ClearRect(width as real, height as real)];
    var k := 0;
    assert landmarks[0..] == landmarks;
    while k < |landmarks|
      invariant 0 <= k <= |landmarks|
      invariant commands + Markers(landmarks[k..], width, height)
        == [ClearRect(width as real, height as real)] + Markers(landmarks, width, height)
    {
      MarkersStep(landmarks, k, width, height);
      var landmark := landmarks[k];
      if landmark.visibility > VISIBILITY_THRESHOLD {
        var marker := Circle(landmark.x * width as real, landmark.y * height as real, MARKER_RADIUS);
        assert marker == Marker(landmarks[k], width, height);
        assert commands + ([marker] + Markers(landmarks[k + 1..], width, height))
            == (commands + [marker]) + Markers(landmarks[k + 1..], width, height);
        commands := commands + [marker];
      }
      k := k + 1;
    }
    var connections := DrawConnections(landmarks, width, height);
    drawing := Drawing(commands + connections.commands, connections.threw);
  }

  /** A marker is drawn exactly for each visible landmark, at its scaled position. */
  lemma {:induction false} MarkersExact(landmarks: seq<Landmark>, width: nat, height: nat, c: DrawCommand)
    ensures c in Markers(landmarks, width, height)
        <==> exists i :: 0 <= i < |landmarks| && Visible(landmarks[i]) && c == Marker(landmarks[i], width, height)
  {
    if landmarks != [] {
      MarkersExact(landmarks[1..], width, height, c);
      if exists i :: 0 <= i < |landmarks| && Visible(landmarks[i]) && c == Marker(landmarks[i], width, height) {
        var i :| 0 <= i < |landmarks| && Visible(landmarks[i]) && c == Marker(landmarks[i], width, height);
        if i > 0 {
          assert landmarks[1..][i - 1] == landmarks[i];
        }
      }
      if c in Markers(landmarks[1..], width, height) {
        var i :| 0 <= i < |landmarks[1..]| && Visible(landmarks[1..][i]) && c == Marker(landmarks[1..][i], width, height);
        assert landmarks[i + 1] == landmarks[1..][i];
      }
    }
  }

  /** Markers keep list order: the markers of a concatenation are those of its parts, one
      after the other. */
  lemma {:induction false} MarkersConcat(front: seq<Landmark>, back: seq<Landmark>, width: nat, height: nat)
    ensures Markers(front + back, width, height) == Markers(front, width, height) + Markers(back, width, height)
  {
    if front == [] {
      assert front + back == back;
    } else {
      var head := if Visible(front[0]) then [Marker(front[0], width, height)] else [];
      calc == {
        Markers(front + back, width, height);
        { assert (front + back)[0] == front[0];
          assert (front + back)[1..] == front[1..] + back; }
        head + Markers(front[1..] + back, width, height);
        { MarkersConcat(front[1..], back, width, height); }
        head + (Markers(front[1..], width, height) + Markers(back, width, height));
        (head + Markers(front[1..], width, height)) + Markers(back, width, height);
      }
    }
  }

  /** Lines keep pair order and each pair draws on its own: the drawing of a concatenation
      of pair lists, when the front part does not throw, is that of the front followed by
      that of the back. */
  lemma {:induction false} ConnectionsConcat(landmarks: seq<Landmark>, front: seq<(nat, nat)>, back: seq<(nat, nat)>, width: nat, height: nat)
    requires !ConnectionsOf(landmarks, front, width, height).threw
    ensures ConnectionsOf(landmarks, front + back, width, height)
         == Drawing(ConnectionsOf(landmarks, front, width, height).commands + ConnectionsOf(landmarks, back, width, height).commands,
                    ConnectionsOf(landmarks, back, width, height).threw)
  {
    if front == [] {
      assert front + back == back;
    } else {
      assert (front + back)[0] == front[0];
      assert (front + back)[1..] == front[1..] + back;
      ConnectionsConcat(landmarks, front[1..], back, width, height);
      var rest := ConnectionsOf(landmarks, front[1..], width, height);
      var here := if Joined(landmarks, front[0]) then [PairSegment(landmarks, front[0], width, height)] else [];
      assert here + (rest.commands + ConnectionsOf(landmarks, back, width, height).commands)
          == (here + rest.commands) + ConnectionsOf(landmarks, back, width, height).commands;
    }
  }

  /** A single pair that does not throw draws one segment if both its ends are visible and
      nothing otherwise. */
  lemma OnePair(landmarks: seq<Landmark>, pair: (nat, nat), width: nat, height: nat)
    requires !PairThrows(landmarks, pair)
    ensures ConnectionsOf(landmarks, [pair], width, height)
         == Drawing(if Joined(landmarks, pair) then [PairSegment(landmarks, pair, width, height)] else [], false)
  {
    assert [pair][1..] == [];
  }

  /** With every index of every pair inside the list, the connection loop never throws, it
      draws at most one segment per pair, and a segment is drawn exactly for each pair
      whose two ends are visible. */
  lemma {:induction false} ConnectionsInRange(landmarks: seq<Landmark>, pairs: seq<(nat, nat)>, width: nat, height: nat, c: DrawCommand)
    requires forall k :: 0 <= k < |pairs| ==> pairs[k].0 < |landmarks| && pairs[k].1 < |landmarks|
    ensures !ConnectionsOf(landmarks, pairs, width, height).threw
    ensures |ConnectionsOf(landmarks, pairs, width, height).commands| <= |pairs|
    ensures c in ConnectionsOf(landmarks, pairs, width, height).commands
        <==> exists k :: 0 <= k < |pairs| && Joined(landmarks, pairs[k]) && c == PairSegment(landmarks, pairs[k], width, height)
  {
    if pairs != [] {
      ConnectionsInRange(landmarks, pairs[1..], width, height, c);
      if exists k :: 0 <= k < |pairs| && Joined(landmarks, pairs[k]) && c == PairSegment(landmarks, pairs[k], width, height) {
        var k :| 0 <= k < |pairs| && Joined(landmarks, pairs[k]) && c == PairSegment(landmarks, pairs[k], width, height);
        if k > 0 {
          assert pairs[1..][k - 1] == pairs[k];
        }
      }
      if c in ConnectionsOf(landmarks, pairs[1..], width, height).commands {
        var k :| 0 <= k < |pairs[1..]| && Joined(landmarks, pairs[1..][k]) && c == PairSegment(landmarks, pairs[1..][k], width, height);
        assert pairs[k + 1] == pairs[1..][k];
      }
    }
  }

  /** On a list of at least 17 landmarks (the highest skeleton index is 16) the connections
      never throw, and a line is drawn exactly for those of the seven pairs whose two ends
      are visible; a shorter list is the only way for the loop to throw. */
  lemma SkeletonDrawn(landmarks: seq<Landmark>, width: nat, height: nat, c: DrawCommand)
    requires |landmarks| >= 17
    ensures !ConnectionsThrow(landmarks)
    ensures !ConnectionsOf(landmarks, CONNECTIONS, width, height).threw
    ensures |ConnectionsOf(landmarks, CONNECTIONS, width, height).commands| <= 7
    ensures c in ConnectionsOf(landmarks, CONNECTIONS, width, height).commands
        <==> exists k :: 0 <= k < |CONNECTIONS| && Joined(landmarks, CONNECTIONS[k])
                         && c == PairSegment(landmarks, CONNECTIONS[k], width, height)
  {
    ConnectionsInRange(landmarks, CONNECTIONS, width, height, c);
    ConnectionsInRange(landmarks, CONNECTIONS, 0, 0, c);
  }

  /** A list too short to hold a shoulder (index 11) throws on the first pair, before any
      line is drawn. */
  lemma NoShoulderThrows(landmarks: seq<Landmark>, width: nat, height: nat)
    requires |landmarks| <= 11
    ensures ConnectionsOf(landmarks, CONNECTIONS, width, height) == Drawing([], true)
  {
  }
}
