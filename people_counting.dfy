/**
 * The backend's person-counting step (biomedical-backend/app/people_counting.py):
 * the model's pose landmarks are scaled to pixels and compared with the
 * landmarks retained from the previous call; a displacement beyond a fixed
 * pixel threshold, or the absence of anything to compare with, counts one new
 * person. The model itself is an input: `None` when no pose was detected.
 */
module PeopleCounting {
  import opened Wrappers
  import opened Landmarks

  /** The thresholds are fixed fractions of a 640x480 frame, whatever the image size. */
  const XThreshold: real := 0.2 * 640.0
  const YThreshold: real := 0.2 * 480.0

  const StatusSuccess: string := "success"
  const StatusNoPose: string := "no_pose_detected"

  /** The dictionary `detect_people` returns. */
  datatype PeopleResult = PeopleResult(status: string, count: nat, landmarks: seq<Landmark>,
                                       previousLandmarks: Option<seq<Landmark>>)

  /** One scaled entry per model landmark, in model order. */
  function ScaleAll(lms: seq<Landmark>, width: nat, height: nat): seq<Landmark>
  {
    seq(|lms|, i requires 0 <= i < |lms| => Scale(lms[i], width, height))
  }

  /**
   * `is_new_person`: with nothing retained (None or an empty list) every set is
   * new; otherwise a set is new iff some pair of `zip(current, previous)`
   * moved strictly more than the thresholds.
   */
  function IsNewPerson(current: seq<Landmark>, previous: Option<seq<Landmark>>): (r: bool)
    ensures (previous.None? || previous.value == []) ==> r
    ensures previous.Some? && previous.value != [] ==>
              (r <==> exists i :: 0 <= i < |current| && i < |previous.value| &&
                                  (Abs(current[i].x - previous.value[i].x) > 128.0 ||
                                   Abs(current[i].y - previous.value[i].y) > 96.0))
  {
    if previous.None? || |previous.value| == 0 then true
    else MovedBeyond(current, previous.value, XThreshold, YThreshold)
  }

  /** The part of `detect_people` after inference; `pose` is the model's normalised output. */
  function DetectPeople(pose: Option<seq<Landmark>>, width: nat, height: nat,
                        previous: Option<seq<Landmark>>): (r: PeopleResult)
    ensures pose.None? ==> r == PeopleResult(StatusNoPose, 0, [], previous)
    ensures pose.Some? ==> r.status == StatusSuccess && r.previousLandmarks == Some(r.landmarks)
    ensures pose.Some? ==> |r.landmarks| == |pose.value|
    ensures pose.Some? ==> forall i :: 0 <= i < |pose.value| ==>
              r.landmarks[i] == Scale(pose.value[i], width, height)
    ensures r.count <= 1
    ensures r.count == 1 <==> pose.Some? && IsNewPerson(r.landmarks, previous)
  {
    match pose
    case None => PeopleResult(StatusNoPose, 0, [], previous)
    case Some(lms) =>
      var current := ScaleAll(lms, width, height);
      PeopleResult(StatusSuccess, if IsNewPerson(current, previous) then 1 else 0, current, Some(current))
  }

  /** The first observation always counts, for any current set. */
  lemma FirstObservationCounts(lms: seq<Landmark>, width: nat, height: nat)
    ensures DetectPeople(Some(lms), width, height, None).count == 1
    ensures DetectPeople(Some(lms), width, height, Some([])).count == 1
  {
  }

  /** Seeing exactly the retained (non-empty) set again is not a new person. */
  lemma SameSetIsNotNew(current: seq<Landmark>)
    requires current != []
    ensures !IsNewPerson(current, Some(current))
  {
  }

  /** Retained landmarks beyond the length of the current set never matter. */
  lemma LongerPreviousIgnored(current: seq<Landmark>, previous: seq<Landmark>, extra: seq<Landmark>)
    requires |current| <= |previous| && previous != []
    ensures IsNewPerson(current, Some(previous + extra)) == IsNewPerson(current, Some(previous))
  {
  }

  /** Current landmarks beyond the length of the retained set never matter. */
  lemma LongerCurrentIgnored(current: seq<Landmark>, extra: seq<Landmark>, previous: seq<Landmark>)
    requires |previous| <= |current|
    ensures IsNewPerson(current + extra, Some(previous)) == IsNewPerson(current, Some(previous))
  {
  }

  /** The threshold is strict: a move of exactly 128 px on x or 96 px on y is the same person. */
  lemma ThresholdIsStrict(x: real, y: real, z: real, z': real)
    ensures !IsNewPerson([Landmark(x + 128.0, y, z)], Some([Landmark(x, y, z')]))
    ensures !IsNewPerson([Landmark(x, y - 96.0, z)], Some([Landmark(x, y, z')]))
    ensures IsNewPerson([Landmark(x + 128.1, y, z)], Some([Landmark(x, y, z')]))
    ensures IsNewPerson([Landmark(x, y - 96.1, z)], Some([Landmark(x, y, z')]))
  {
  }

  /**
   * The same normalised movement on two image sizes: 0.15 of the width is
   * 96 px on a 640-wide image (not new) but 192 px on a 1280-wide one (new),
   * because the thresholds do not scale with the image.
   */
  lemma ThresholdIgnoresImageSize()
    ensures DetectPeople(Some([Landmark(0.55, 0.5, 0.0)]), 640, 480,
                         Some([Scale(Landmark(0.4, 0.5, 0.0), 640, 480)])).count == 0
    ensures DetectPeople(Some([Landmark(0.55, 0.5, 0.0)]), 1280, 480,
                         Some([Scale(Landmark(0.4, 0.5, 0.0), 1280, 480)])).count == 1
  {
  }

  /** The worked scenario: a 150 px horizontal move on a 640x480 frame is a new person. */
  lemma HorizontalMoveScenario()
    ensures DetectPeople(Some([Landmark(250.0 / 640.0, 100.0 / 480.0, 0.0)]), 640, 480,
                         Some([Landmark(100.0, 100.0, 0.0)]))
            == PeopleResult(StatusSuccess, 1, [Landmark(250.0, 100.0, 0.0)], Some([Landmark(250.0, 100.0, 0.0)]))
  {
    var r := DetectPeople(Some([Landmark(250.0 / 640.0, 100.0 / 480.0, 0.0)]), 640, 480,
                          Some([Landmark(100.0, 100.0, 0.0)]));
    assert r.landmarks == [Landmark(250.0, 100.0, 0.0)];
  }
}
