/**
 * The hand detector's post-processing (biomedical-backend/app/arm_fingers_detection.py):
 * every detected hand becomes its lower-cased handedness label and all of its
 * landmarks, each tagged with its position and scaled to pixels.
 */
module ArmFingersDetection {
  import opened Wrappers
  import opened Landmarks

  const StatusSuccess: string := "success"
  const StatusNoHands: string := "no_hands_detected"

  /** One entry of `hands`: its `label` (here `handLabel`) and the hand's landmarks. */
  datatype Hand = Hand(handLabel: string, landmarks: seq<IndexedLandmark>)

  /** The dictionary `detect_arm_fingers` returns. */
  datatype HandsResult = HandsResult(status: string, hands: seq<Hand>)

  function LowerChar(c: char): char
  {
    if 'A' <= c <= 'Z' then (c as int + 32) as char else c
  }

  /** `str.lower()` on ASCII text. */
  function Lower(s: string): string
  {
    seq(|s|, i requires 0 <= i < |s| => LowerChar(s[i]))
  }

  /** The model's handedness labels become the names the API reports. */
  lemma LowerHandedness()
    ensures Lower("Left") == "left" && Lower("Right") == "right"
  {
  }

  /** `enumerate(hand_landmarks.landmark)`: each landmark tagged with its position, scaled. */
  function Enumerated(lms: seq<Landmark>, width: nat, height: nat): (r: seq<IndexedLandmark>)
    ensures |r| == |lms|
    ensures forall k :: 0 <= k < |lms| ==> r[k].index == k
    ensures forall k :: 0 <= k < |lms| ==>
              Scale(lms[k], width, height) == Landmark(r[k].x, r[k].y, r[k].z)
    decreases |lms|
  {
    if lms == [] then []
    else Enumerated(lms[..|lms| - 1], width, height)
         + [Indexed(|lms| - 1, Scale(lms[|lms| - 1], width, height))]
  }

  /** Hand `i` has a classification: `multi_handedness[i].classification[0]` exists. */
  predicate Labelled(handedness: seq<seq<string>>, i: nat)
  {
    i < |handedness| && handedness[i] != []
  }

  /** The label of hand `i`: the first classification of `multi_handedness[i]`, lower-cased. */
  function HandLabel(handedness: seq<seq<string>>, i: nat): (r: Result<string, string>)
    ensures r.Err? <==> !Labelled(handedness, i)
    ensures r.Ok? ==> r.value == Lower(handedness[i][0])
    ensures r.Err? ==> r.error == IndexErrorText
  {
    if i < |handedness| && |handedness[i]| > 0 then Ok(Lower(handedness[i][0]))
    else Err(IndexErrorText)
  }

  /** The hands in detection order, or the `IndexError` of the first hand without a label. */
  function HandsOf(hands: seq<seq<Landmark>>, handedness: seq<seq<string>>, width: nat, height: nat)
    : (r: Result<seq<Hand>, string>)
    ensures r.Err? <==> exists i :: 0 <= i < |hands| && !Labelled(handedness, i)
    ensures r.Err? ==> r.error == IndexErrorText
    ensures r.Ok? ==> |r.value| == |hands|
    ensures r.Ok? ==> forall i :: 0 <= i < |hands| ==>
              Labelled(handedness, i) &&
              r.value[i] == Hand(Lower(handedness[i][0]), Enumerated(hands[i], width, height))
    decreases |hands|
  {
    if hands == [] then Ok([])
    else
      var n := |hands| - 1;
      match HandsOf(hands[..n], handedness, width, height)
      case Err(e) =>
        // the unlabelled hand of the prefix is also a hand of `hands`
        assert exists i :: 0 <= i < |hands| && !Labelled(handedness, i) by {
          var i :| 0 <= i < |hands[..n]| && !Labelled(handedness, i);
          assert 0 <= i < |hands|;
        }
        Err(e)
      case Ok(prefix) =>
        match HandLabel(handedness, n)
        case Err(e) =>
          assert 0 <= n < |hands| && !Labelled(handedness, n);
          Err(e)
        case Ok(lowered) => Ok(prefix + [Hand(lowered, Enumerated(hands[n], width, height))])
  }

  /** What `detect_arm_fingers` returns for the model's hands: none when the list is None or empty. */
  function FingersOutcome(hands: Option<seq<seq<Landmark>>>, handedness: seq<seq<string>>, width: nat, height: nat)
    : (r: Result<HandsResult, string>)
    ensures hands.None? || hands.value == [] ==> r == Ok(HandsResult(StatusNoHands, []))
    ensures hands.Some? && hands.value != [] && r.Ok? ==> r.value.status == StatusSuccess
    ensures hands.Some? && hands.value != [] ==>
              (r.Err? <==> exists i :: 0 <= i < |hands.value| && !Labelled(handedness, i))
    ensures hands.Some? && r.Err? ==> r.error == IndexErrorText
    ensures hands.Some? && r.Ok? ==> |r.value.hands| == |hands.value|
    ensures hands.Some? && r.Ok? ==> forall i :: 0 <= i < |hands.value| ==>
              Labelled(handedness, i) &&
              r.value.hands[i] == Hand(Lower(handedness[i][0]), Enumerated(hands.value[i], width, height))
  {
    if hands.None? || |hands.value| == 0 then Ok(HandsResult(StatusNoHands, []))
    else
      match HandsOf(hands.value, handedness, width, height)
      case Err(e) => Err(e)
      case Ok(handsData) => Ok(HandsResult(StatusSuccess, handsData))
  }

  /** `detect_arm_fingers` after inference: nested loops over the hands and their landmarks. */
  method DetectArmFingers(hands: Option<seq<seq<Landmark>>>, handedness: seq<seq<string>>,
                          width: nat, height: nat) returns (r: Result<HandsResult, string>)
    ensures r == FingersOutcome(hands, handedness, width, height)
  {
    if hands.None? || |hands.value| == 0 {
      return Ok(HandsResult(StatusNoHands, []));
    }
    var all := hands.value;
    var handsData: seq<Hand> := [];
    for handIdx := 0 to |all|
      invariant HandsOf(all[..handIdx], handedness, width, height) == Ok(handsData)
    {
      assert all[..handIdx + 1][..handIdx] == all[..handIdx];
      if handIdx >= |handedness| || |handedness[handIdx]| == 0 {
        return Err(IndexErrorText);
      }
      var lowered := Lower(handedness[handIdx][0]);
      var lms := all[handIdx];
      var landmarks: seq<IndexedLandmark> := [];
      for idx := 0 to |lms|
        invariant landmarks == Enumerated(lms[..idx], width, height)
      {
        assert lms[..idx + 1][..idx] == lms[..idx];
        landmarks := landmarks + [Indexed(idx, Scale(lms[idx], width, height))];
      }
      assert lms[..|lms|] == lms;
      handsData := handsData + [Hand(lowered, landmarks)];
    }
    assert all[..|all|] == all;
    return Ok(HandsResult(StatusSuccess, handsData));
  }
}
