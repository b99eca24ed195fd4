/** Pose landmarks as the pose estimator reports them and as the server serialises them. */
module Pose {

  /** One keypoint as the estimator yields it: normalised image coordinates, a depth,
      and the visibility and presence confidences. */
  datatype DetectedLandmark = DetectedLandmark(x: real, y: real, z: real, visibility: real, presence: real)

  /** One entry of the landmark list in a server response: the four fields it copies. */
  datatype Landmark = Landmark(x: real, y: real, z: real, visibility: real)
}
