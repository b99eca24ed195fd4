/** The server side of the posture service (backend/main.py): the stateless angle
    classifier and the shaping of the response to one uploaded frame. */
module Backend {
  import opened Options
  import opened Pose

  const GOOD_STATUS: string := "Good Posture"
  const BAD_STATUS: string := "Bad Posture! Please sit straight"
  const NO_POSE_ERROR: string := "No pose detected"

  /** The good band of the negated neck angle, in degrees, both bounds inclusive. */
  const MIN_GOOD_ANGLE: real := 60.0
  const MAX_GOOD_ANGLE: real := 80.0

  /** The dictionary `check_posture` returns. */
  datatype PostureResult = PostureResult(status: string, isGood: bool)

  /** What the estimator found in a frame: its landmarks and the neck angle computed from
      them (the angle computation itself is not part of this model). */
  datatype Detection = Detection(landmarks: seq<DetectedLandmark>, neckAngle: real)

  /** The JSON body `process_image` returns: an error object or a posture reading. */
  datatype Response =
    | ErrorResponse(error: string)
    | PostureResponse(angle: real, status: string, isGood: bool, landmarks: seq<Landmark>)

  /** The classifier: good exactly when the negated angle lies in [60, 80]. */
  function CheckPosture(angle: real): (r: PostureResult)
    ensures r.isGood <==> MIN_GOOD_ANGLE <= -angle <= MAX_GOOD_ANGLE
    ensures r.isGood <==> r.status == GOOD_STATUS
    ensures r.status == GOOD_STATUS || r.status == BAD_STATUS
  {
    var negated := -angle;
    if MIN_GOOD_ANGLE <= negated <= MAX_GOOD_ANGLE then PostureResult(GOOD_STATUS, true)
    else PostureResult(BAD_STATUS, false)
  }

  /** The record a detected landmark becomes in the response. */
  function ToRecord(d: DetectedLandmark): (r: Landmark)
    ensures r.x == d.x && r.y == d.y && r.z == d.z && r.visibility == d.visibility
  {
    Landmark(d.x, d.y, d.z, d.visibility)
  }

  /** The loop that turns the detected landmarks into a JSON-ready list. */
  method SerializeLandmarks(detected: seq<DetectedLandmark>) returns (records: seq<Landmark>)
    ensures |records| == |detected|
    ensures forall i :: 0 <= i < |detected| ==>
      records[i].x == detected[i].x && records[i].y == detected[i].y &&
      records[i].z == detected[i].z && records[i].visibility == detected[i].visibility
  {
    records := [];
    var k := 0;
    while k < |detected|
      invariant 0 <= k <= |detected|
      invariant |records| == k
      invariant forall i :: 0 <= i < k ==> records[i] == ToRecord(detected[i])
    {
      records := records + [ToRecord(detected[k])];
      k := k + 1;
    }
  }

  /** The response to one frame: an error object when no pose was found, otherwise the
      angle, the classifier's verdict on that same angle and the copied landmark list. */
  method ProcessImage(detection: Option<Detection>) returns (response: Response)
    ensures detection.None? <==> response == ErrorResponse(NO_POSE_ERROR)
    ensures detection.Some? ==>
      && response.PostureResponse?
      && response.angle == detection.value.neckAngle
      && response.status == CheckPosture(detection.value.neckAngle).status
      && response.isGood == CheckPosture(detection.value.neckAngle).isGood
      && |response.landmarks| == |detection.value.landmarks|
      && forall i :: 0 <= i < |response.landmarks| ==>
           response.landmarks[i] == ToRecord(detection.value.landmarks[i])
  {
    match detection {
      case None =>
        response := ErrorResponse(NO_POSE_ERROR);
      case Some(d) =>
        var posture := CheckPosture(d.neckAngle);
        var records := SerializeLandmarks(d.landmarks);
        response := PostureResponse(d.neckAngle, posture.status, posture.isGood, records);
    }
  }
}
