/**
 * The HTTP layer (biomedical-backend/app/main.py): `POST /detect/{endpoint}`
 * checks the endpoint name, decodes the upload, and runs the matching
 * detector; the "people" detector threads the global `previous_landmarks`
 * from one call to the next. A reply is either a JSON payload (status 200)
 * or an `HTTPException` with its status code and detail.
 */
module DetectionApi {
  import opened Wrappers
  import opened Landmarks
  import ArmDetection
  import ArmFingersDetection
  import EyesDetection
  import PeopleCounting

  /** The endpoint names `detect` accepts, in the order it lists them. */
  const ValidEndpoints: seq<string> := ["arm", "arm-fingers", "eyes", "head", "people"]

  /** The detail of the 400 `detect` raises, `valid_endpoints` rendered as a Python list. */
  const InvalidEndpointDetail: string :=
    "Invalid endpoint. Must be one of ['arm', 'arm-fingers', 'eyes', 'head', 'people']"

  /** `str()` of the `HTTPException(400, "Invalid endpoint")` of `process_detection_task`. */
  const InvalidEndpointText: string := "400: Invalid endpoint"

  const DetectionErrorPrefix: string := "Detection error: "
  const RequestErrorPrefix: string := "Error processing request: "

  /** One face box of the head detector, which is not part of this model. */
  datatype Face = Face(xmin: int, ymin: int, width: int, height: int, confidence: real)
  datatype HeadResult = HeadResult(status: string, faces: seq<Face>)

  /**
   * What the external models report for one decoded image: its size, the
   * pose landmarks, the face meshes, the hands with their handedness labels,
   * and the head detector's outcome.
   */
  datatype Inference = Inference(
    width: nat, height: nat,
    pose: Option<seq<Landmark>>,
    faces: Option<seq<seq<Landmark>>>,
    hands: Option<seq<seq<Landmark>>>,
    handedness: seq<seq<string>>,
    head: Result<HeadResult, string>)

  /** The JSON body of a 200 reply; the "people" body has no `previous_landmarks`. */
  datatype Payload =
    | ArmPayload(arm: ArmDetection.ArmResult)
    | FingersPayload(fingers: ArmFingersDetection.HandsResult)
    | EyesPayload(eyes: EyesDetection.EyesResult)
    | HeadPayload(head: HeadResult)
    | PeoplePayload(status: string, count: nat, landmarks: seq<Landmark>)

  datatype HttpError = HttpError(statusCode: nat, detail: string)

  /** A reply and the value of the global `previous_landmarks` after it. */
  datatype Served = Served(reply: Result<Payload, HttpError>, previous: Option<seq<Landmark>>)

  /** The endpoint whose detector produces a payload of this kind. */
  function PayloadEndpoint(p: Payload): string
  {
    match p
    case ArmPayload(_) => "arm"
    case FingersPayload(_) => "arm-fingers"
    case EyesPayload(_) => "eyes"
    case HeadPayload(_) => "head"
    case PeoplePayload(_, _, _) => "people"
  }

  /** The broad `except` of `process_detection_task`: any error becomes a 500. */
  function DetectionFailed(text: string): Result<Payload, HttpError>
  {
    Err(HttpError(500, DetectionErrorPrefix + text))
  }

  function ArmReply(r: Result<ArmDetection.ArmResult, string>): Result<Payload, HttpError>
  {
    match r
    case Ok(v) => Ok(ArmPayload(v))
    case Err(e) => DetectionFailed(e)
  }

  function FingersReply(r: Result<ArmFingersDetection.HandsResult, string>): Result<Payload, HttpError>
  {
    match r
    case Ok(v) => Ok(FingersPayload(v))
    case Err(e) => DetectionFailed(e)
  }

  function EyesReply(r: Result<EyesDetection.EyesResult, string>): Result<Payload, HttpError>
  {
    match r
    case Ok(v) => Ok(EyesPayload(v))
    case Err(e) => DetectionFailed(e)
  }

  function HeadReply(r: Result<HeadResult, string>): Result<Payload, HttpError>
  {
    match r
    case Ok(v) => Ok(HeadPayload(v))
    case Err(e) => DetectionFailed(e)
  }

  /** The "people" branch: the reply drops `previous_landmarks`, which becomes the new global. */
  function PeopleServed(inf: Inference, previous: Option<seq<Landmark>>): (s: Served)
    ensures s.reply.Ok? && s.reply.value.PeoplePayload?
    ensures inf.pose.None? ==> s.previous == previous
    ensures inf.pose.None? ==> s.reply == Ok(PeoplePayload(PeopleCounting.StatusNoPose, 0, []))
    ensures inf.pose.Some? ==> s.previous == Some(s.reply.value.landmarks)
    ensures inf.pose.Some? ==>
              s.reply.value.landmarks == PeopleCounting.ScaleAll(inf.pose.value, inf.width, inf.height)
    ensures inf.pose.Some? ==> s.reply.value.status == PeopleCounting.StatusSuccess
    ensures s.reply.value.count == 1 <==>
              inf.pose.Some? && PeopleCounting.IsNewPerson(s.reply.value.landmarks, previous)
    ensures s.reply.value.count <= 1
  {
    var result := PeopleCounting.DetectPeople(inf.pose, inf.width, inf.height, previous);
    Served(Ok(PeoplePayload(result.status, result.count, result.landmarks)), result.previousLandmarks)
  }

  /** `process_detection_task`: dispatch on the endpoint name; any other name ends as a 500. */
  function ProcessTask(endpoint: string, inf: Inference, previous: Option<seq<Landmark>>): (s: Served)
    ensures endpoint != "people" ==> s.previous == previous
    ensures endpoint == "people" ==>
              s.previous == PeopleCounting.DetectPeople(inf.pose, inf.width, inf.height, previous).previousLandmarks
    ensures endpoint !in ValidEndpoints ==>
              s.reply == Err(HttpError(500, DetectionErrorPrefix + InvalidEndpointText))
    ensures s.reply.Ok? ==> PayloadEndpoint(s.reply.value) == endpoint
    ensures s.reply.Err? ==> s.reply.error.statusCode == 500
  {
    if endpoint == "arm" then
      Served(ArmReply(ArmDetection.ArmOutcome(inf.pose, inf.width, inf.height)), previous)
    else if endpoint == "arm-fingers" then
      Served(FingersReply(ArmFingersDetection.FingersOutcome(inf.hands, inf.handedness, inf.width, inf.height)), previous)
    else if endpoint == "eyes" then
      Served(EyesReply(EyesDetection.EyesOutcome(inf.faces, inf.width, inf.height)), previous)
    else if endpoint == "head" then
      Served(HeadReply(inf.head), previous)
    else if endpoint == "people" then
      PeopleServed(inf, previous)
    else
      Served(DetectionFailed(InvalidEndpointText), previous)
  }

  /**
   * `detect`: the endpoint check comes first; then the upload is decoded
   * (`decoded` is the decoded image or the text of the error decoding
   * raised) and the task is run. The task's `HTTPException` passes unchanged.
   */
  function HandleDetect(endpoint: string, decoded: Result<Inference, string>,
                        previous: Option<seq<Landmark>>): (s: Served)
    ensures endpoint !in ValidEndpoints ==> s == Served(Err(HttpError(400, InvalidEndpointDetail)), previous)
    ensures endpoint in ValidEndpoints && decoded.Err? ==>
              s == Served(Err(HttpError(500, RequestErrorPrefix + decoded.error)), previous)
    ensures s.reply.Err? ==> s.reply.error.statusCode == 400 || s.reply.error.statusCode == 500
    ensures s.reply.Ok? ==> PayloadEndpoint(s.reply.value) == endpoint
    ensures endpoint in ValidEndpoints && decoded.Ok? ==> s == ProcessTask(endpoint, decoded.value, previous)
    ensures s.previous != previous ==> endpoint == "people" && decoded.Ok? && decoded.value.pose.Some?
  {
    if endpoint !in ValidEndpoints then Served(Err(HttpError(400, InvalidEndpointDetail)), previous)
    else
      match decoded
      case Err(e) => Served(Err(HttpError(500, RequestErrorPrefix + e)), previous)
      case Ok(inf) => ProcessTask(endpoint, inf, previous)
  }

  /** Each valid name runs exactly its own detector. */
  lemma DispatchMatchesDetector(inf: Inference, previous: Option<seq<Landmark>>)
    ensures ProcessTask("arm", inf, previous).reply == ArmReply(ArmDetection.ArmOutcome(inf.pose, inf.width, inf.height))
    ensures ProcessTask("arm-fingers", inf, previous).reply ==
              FingersReply(ArmFingersDetection.FingersOutcome(inf.hands, inf.handedness, inf.width, inf.height))
    ensures ProcessTask("eyes", inf, previous).reply == EyesReply(EyesDetection.EyesOutcome(inf.faces, inf.width, inf.height))
    ensures ProcessTask("head", inf, previous).reply == HeadReply(inf.head)
    ensures ProcessTask("people", inf, previous) == PeopleServed(inf, previous)
  {
  }

  /** An invalid name is refused before the upload matters: nothing about the image changes the reply. */
  lemma InvalidEndpointIgnoresUpload(endpoint: string, d1: Result<Inference, string>, d2: Result<Inference, string>,
                                     previous: Option<seq<Landmark>>)
    requires endpoint !in ValidEndpoints
    ensures HandleDetect(endpoint, d1, previous) == HandleDetect(endpoint, d2, previous)
    ensures HandleDetect(endpoint, d1, previous).reply.error.statusCode == 400
  {
  }

  /** One call to `detect`, as the server sees it. */
  datatype Request = Request(endpoint: string, decoded: Result<Inference, string>)

  /** The global `previous_landmarks` after serving a run of requests in order. */
  function Serve(previous: Option<seq<Landmark>>, requests: seq<Request>): Option<seq<Landmark>>
    decreases |requests|
  {
    if requests == [] then previous
    else Serve(HandleDetect(requests[0].endpoint, requests[0].decoded, previous).previous, requests[1..])
  }

  /** A request that finds a pose on the "people" endpoint. */
  predicate SeesPerson(r: Request)
  {
    r.endpoint == "people" && r.decoded.Ok? && r.decoded.value.pose.Some?
  }

  /** Only "people" requests that detect a pose change the global. */
  lemma {:induction false} OnlyPeopleChangeGlobal(previous: Option<seq<Landmark>>, requests: seq<Request>)
    requires forall i :: 0 <= i < |requests| ==> !SeesPerson(requests[i])
    ensures Serve(previous, requests) == previous
    decreases |requests|
  {
    if requests != [] {
      OnlyPeopleChangeGlobal(previous, requests[1..]);
    }
  }

  /** After a run, the global holds the scaled landmarks of the last request that saw a person. */
  lemma {:induction false} GlobalIsLastPersonSeen(previous: Option<seq<Landmark>>, requests: seq<Request>, i: nat)
    requires i < |requests| && SeesPerson(requests[i])
    requires forall j :: i < j < |requests| ==> !SeesPerson(requests[j])
    ensures var inf := requests[i].decoded.value;
            Serve(previous, requests) == Some(PeopleCounting.ScaleAll(inf.pose.value, inf.width, inf.height))
    decreases |requests|
  {
    var next := HandleDetect(requests[0].endpoint, requests[0].decoded, previous).previous;
    if i == 0 {
      OnlyPeopleChangeGlobal(next, requests[1..]);
    } else {
      GlobalIsLastPersonSeen(next, requests[1..], i - 1);
    }
  }

  /** The server: the global `previous_landmarks`, `None` when the process starts. */
  class DetectionService {
    var previousLandmarks: Option<seq<Landmark>>

    constructor ()
      ensures previousLandmarks == None
    {
      previousLandmarks := None;
    }

    /** `process_detection_task`, running the detectors' own loops. */
    method ProcessDetectionTask(endpoint: string, inf: Inference) returns (reply: Result<Payload, HttpError>)
      modifies this
      ensures Served(reply, previousLandmarks) == ProcessTask(endpoint, inf, old(previousLandmarks))
    {
      if endpoint == "arm" {
        var r := ArmDetection.DetectArm(inf.pose, inf.width, inf.height);
        reply := ArmReply(r);
      } else if endpoint == "arm-fingers" {
        var r := ArmFingersDetection.DetectArmFingers(inf.hands, inf.handedness, inf.width, inf.height);
        reply := FingersReply(r);
      } else if endpoint == "eyes" {
        var r := EyesDetection.DetectEyes(inf.faces, inf.width, inf.height);
        reply := EyesReply(r);
      } else if endpoint == "head" {
        reply := HeadReply(inf.head);
      } else if endpoint == "people" {
        var result := PeopleCounting.DetectPeople(inf.pose, inf.width, inf.height, previousLandmarks);
        previousLandmarks := result.previousLandmarks;
        reply := Ok(PeoplePayload(result.status, result.count, result.landmarks));
      } else {
        reply := DetectionFailed(InvalidEndpointText);
      }
    }

    /** `detect`: validate, decode, then run the task; errors of the task pass unchanged. */
    method Detect(endpoint: string, decoded: Result<Inference, string>) returns (reply: Result<Payload, HttpError>)
      modifies this
      ensures Served(reply, previousLandmarks) == HandleDetect(endpoint, decoded, old(previousLandmarks))
    {
      if endpoint !in ValidEndpoints {
        return Err(HttpError(400, InvalidEndpointDetail));
      }
      if decoded.Err? {
        return Err(HttpError(500, RequestErrorPrefix + decoded.error));
      }
      reply := ProcessDetectionTask(endpoint, decoded.value);
    }
  }
}
