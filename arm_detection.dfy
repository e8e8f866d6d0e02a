/**
 * The arm detector's post-processing (biomedical-backend/app/arm_detection.py):
 * six fixed pose landmarks, shoulder, elbow and wrist of each side, named
 * and scaled to pixels.
 */
module ArmDetection {
  import opened Wrappers
  import opened Landmarks

  /** Pose indices of the left shoulder, elbow, wrist, then the right ones. */
  const ArmIndices: seq<nat> := [11, 13, 15, 12, 14, 16]
  const ArmNames: seq<string> :=
    ["left_shoulder", "left_elbow", "left_wrist", "right_shoulder", "right_elbow", "right_wrist"]

  const StatusSuccess: string := "success"
  const StatusNoPose: string := "no_pose_detected"

  /** The dictionary `detect_arm` returns. */
  datatype ArmResult = ArmResult(status: string, landmarks: seq<NamedLandmark>)

  /**
   * What `detect_arm` returns for the model's pose output, or the error it
   * raises when the pose has too few landmarks for index 16.
   */
  function ArmOutcome(pose: Option<seq<Landmark>>, width: nat, height: nat): (r: Result<ArmResult, string>)
    ensures pose.None? ==> r == Ok(ArmResult(StatusNoPose, []))
    ensures pose.Some? ==> (r.Err? <==> |pose.value| <= 16)
    ensures r.Err? ==> r.error == IndexErrorText
    ensures pose.Some? && r.Ok? ==> r.value.status == StatusSuccess && |r.value.landmarks| == 6
    ensures pose.Some? && r.Ok? ==> forall k :: 0 <= k < 6 ==>
              r.value.landmarks[k] == Named(ArmNames[k], Scale(pose.value[ArmIndices[k]], width, height))
  {
    match pose
    case None => Ok(ArmResult(StatusNoPose, []))
    case Some(lms) =>
      assert ArmIndices[5] == 16;
      assert forall k :: 0 <= k < 6 ==> ArmIndices[k] <= 16;
      match SelectNamed(lms, ArmIndices, ArmNames, 6, width, height)
      case Err(e) => Err(e)
      case Ok(entries) => Ok(ArmResult(StatusSuccess, entries))
  }

  /** The named entries in order are the left arm's shoulder, elbow, wrist, then the right arm's. */
  lemma ArmEntriesByName(lms: seq<Landmark>, width: nat, height: nat)
    requires |lms| > 16
    ensures var r := ArmOutcome(Some(lms), width, height);
            r.Ok? &&
            r.value.landmarks == [
              Named("left_shoulder", Scale(lms[11], width, height)),
              Named("left_elbow", Scale(lms[13], width, height)),
              Named("left_wrist", Scale(lms[15], width, height)),
              Named("right_shoulder", Scale(lms[12], width, height)),
              Named("right_elbow", Scale(lms[14], width, height)),
              Named("right_wrist", Scale(lms[16], width, height))]
  {
  }

  /** `detect_arm` after inference: the loop over `zip(landmark_indices, landmark_names)`. */
  method DetectArm(pose: Option<seq<Landmark>>, width: nat, height: nat) returns (r: Result<ArmResult, string>)
    ensures r == ArmOutcome(pose, width, height)
  {
    if pose.None? {
      return Ok(ArmResult(StatusNoPose, []));
    }
    var lms := pose.value;
    var armLandmarks: seq<NamedLandmark> := [];
    for i := 0 to |ArmIndices|
      invariant SelectNamed(lms, ArmIndices, ArmNames, i, width, height) == Ok(armLandmarks)
    {
      var idx := ArmIndices[i];
      if idx >= |lms| {
        return Err(IndexErrorText);
      }
      armLandmarks := armLandmarks + [Named(ArmNames[i], Scale(lms[idx], width, height))];
    }
    return Ok(ArmResult(StatusSuccess, armLandmarks));
  }
}
