/**
 * The eye detector's post-processing (biomedical-backend/app/eyes_detection.py):
 * twelve fixed iris landmarks of every detected face mesh, named and scaled
 * to pixels, face by face.
 */
module EyesDetection {
  import opened Wrappers
  import opened Landmarks

  const StatusSuccess: string := "success"
  const StatusNoFace: string := "no_face_detected"

  /** The decimal text of a single digit. */
  function DigitText(d: nat): string
    requires d < 10
  {
    [(48 + d) as char]
  }

  /** The iris indices: 468..473 for the left eye, then 474..479 for the right. */
  function IrisIndices(): seq<nat>
  {
    seq(6, i => 468 + i) + seq(6, i => 474 + i)
  }

  /** The iris names: left_iris_0..left_iris_5, then right_iris_0..right_iris_5, aligned with the indices. */
  function IrisNames(): seq<string>
  {
    seq(6, i requires 0 <= i < 6 => "left_iris_" + DigitText(i))
    + seq(6, i requires 0 <= i < 6 => "right_iris_" + DigitText(i))
  }

  /** The dictionary `detect_eyes` returns. */
  datatype EyesResult = EyesResult(status: string, landmarks: seq<NamedLandmark>)

  /** The iris indices are 468..479, contiguous and ascending. */
  lemma IrisIndicesContiguous()
    ensures |IrisIndices()| == 12
    ensures forall k :: 0 <= k < 12 ==> IrisIndices()[k] == 468 + k
    ensures forall j, k :: 0 <= j < k < 12 ==> IrisIndices()[j] < IrisIndices()[k]
  {
  }

  /** Name k goes with index k: six left iris names numbered 0..5, then six right ones. */
  lemma IrisNamesAligned()
    ensures |IrisNames()| == 12
    ensures forall k :: 0 <= k < 6 ==> IrisNames()[k] == "left_iris_" + DigitText(k)
    ensures forall k :: 6 <= k < 12 ==> IrisNames()[k] == "right_iris_" + DigitText(k - 6)
  {
  }

  /** No two iris landmarks of a face share a name. */
  lemma IrisNamesDistinct()
    ensures forall j, k :: 0 <= j < k < |IrisNames()| ==> IrisNames()[j] != IrisNames()[k]
  {
    IrisNamesAligned();
    forall j, k | 0 <= j < k < |IrisNames()|
      ensures IrisNames()[j] != IrisNames()[k]
    {
      var a, b := IrisNames()[j], IrisNames()[k];
      if j < 6 <= k {
        assert |a| == 11 && |b| == 12;
      } else {
        assert |a| == |b| && a[|a| - 1] != b[|b| - 1];
      }
    }
  }

  /** The twelve iris entries of one face mesh, or `IndexError` when it has fewer than 480 landmarks. */
  function FaceIris(face: seq<Landmark>, width: nat, height: nat): (r: Result<seq<NamedLandmark>, string>)
    ensures r.Err? <==> |face| < 480
    ensures r.Err? ==> r.error == IndexErrorText
    ensures r.Ok? ==> |r.value| == 12 && forall k :: 0 <= k < 12 ==>
              r.value[k] == Named(IrisNames()[k], Scale(face[468 + k], width, height))
  {
    IrisIndicesContiguous();
    IrisNamesAligned();
    assert IrisIndices()[11] == 479;
    SelectNamed(face, IrisIndices(), IrisNames(), |IrisIndices()|, width, height)
  }

  /** The entries of all faces, in face order, or the first face's `IndexError`. */
  function IrisOfFaces(faces: seq<seq<Landmark>>, width: nat, height: nat): (r: Result<seq<NamedLandmark>, string>)
    ensures r.Err? <==> exists f :: 0 <= f < |faces| && |faces[f]| < 480
    ensures r.Err? ==> r.error == IndexErrorText
    ensures r.Ok? ==> |r.value| == 12 * |faces|
    ensures r.Ok? ==> forall f :: 0 <= f < |faces| ==>
              FaceIris(faces[f], width, height) == Ok(r.value[12 * f .. 12 * f + 12])
    decreases |faces|
  {
    if faces == [] then Ok([])
    else
      match IrisOfFaces(faces[..|faces| - 1], width, height)
      case Err(e) => Err(e)
      case Ok(prefix) =>
        match FaceIris(faces[|faces| - 1], width, height)
        case Err(e) => Err(e)
        case Ok(entries) =>
          BlocksOfAppend(prefix, entries, |faces| - 1);
          Ok(prefix + entries)
  }

  /** Appending one face's twelve entries keeps the earlier blocks and adds the new one last. */
  lemma BlocksOfAppend(prefix: seq<NamedLandmark>, entries: seq<NamedLandmark>, n: nat)
    requires |prefix| == 12 * n && |entries| == 12
    ensures (prefix + entries)[12 * n .. 12 * n + 12] == entries
    ensures forall f :: 0 <= f < n ==> (prefix + entries)[12 * f .. 12 * f + 12] == prefix[12 * f .. 12 * f + 12]
  {
  }

  /** Entry 12f+k is iris landmark k of face f, named and scaled. */
  lemma IrisEntryAt(faces: seq<seq<Landmark>>, width: nat, height: nat, f: nat, k: nat)
    requires IrisOfFaces(faces, width, height).Ok?
    requires f < |faces| && k < 12
    ensures var out := IrisOfFaces(faces, width, height).value;
            12 * f + k < |out| &&
            out[12 * f + k] == Named(IrisNames()[k], Scale(faces[f][IrisIndices()[k]], width, height))
  {
  }

  /** What `detect_eyes` returns for the model's face meshes: none when the list is None or empty. */
  function EyesOutcome(faces: Option<seq<seq<Landmark>>>, width: nat, height: nat): (r: Result<EyesResult, string>)
    ensures faces.None? || faces.value == [] ==> r == Ok(EyesResult(StatusNoFace, []))
    ensures faces.Some? && faces.value != [] && r.Ok? ==> r.value.status == StatusSuccess
    ensures faces.Some? && faces.value != [] ==>
              (r.Err? <==> exists f :: 0 <= f < |faces.value| && |faces.value[f]| < 480)
    ensures faces.Some? && r.Err? ==> r.error == IndexErrorText
    ensures faces.Some? && r.Ok? ==> |r.value.landmarks| == 12 * |faces.value|
    ensures faces.Some? && r.Ok? ==> forall f, k :: 0 <= f < |faces.value| && 0 <= k < 12 ==>
              r.value.landmarks[12 * f + k] == Named(IrisNames()[k], Scale(faces.value[f][468 + k], width, height))
  {
    if faces.None? || |faces.value| == 0 then Ok(EyesResult(StatusNoFace, []))
    else
      match IrisOfFaces(faces.value, width, height)
      case Err(e) => Err(e)
      case Ok(entries) =>
        assert forall f, k :: 0 <= f < |faces.value| && 0 <= k < 12 ==>
                 entries[12 * f + k] == Named(IrisNames()[k], Scale(faces.value[f][468 + k], width, height)) by {
          forall f, k | 0 <= f < |faces.value| && 0 <= k < 12
            ensures entries[12 * f + k] == Named(IrisNames()[k], Scale(faces.value[f][468 + k], width, height))
          {
            IrisEntryAt(faces.value, width, height, f, k);
          }
        }
        Ok(EyesResult(StatusSuccess, entries))
  }

  /** The loop's step: one more face whose twelve entries were all found. */
  lemma IrisOfFacesExtend(faces: seq<seq<Landmark>>, f: nat, width: nat, height: nat,
                          done: seq<NamedLandmark>, part: seq<NamedLandmark>)
    requires f < |faces|
    requires IrisOfFaces(faces[..f], width, height) == Ok(done)
    requires SelectNamed(faces[f], IrisIndices(), IrisNames(), |IrisIndices()|, width, height) == Ok(part)
    ensures IrisOfFaces(faces[..f + 1], width, height) == Ok(done + part)
  {
    assert faces[..f + 1][..f] == faces[..f];
    assert faces[..f + 1][f] == faces[f];
  }

  /** `detect_eyes` after inference: the nested loop over faces and `zip(iris_indices, iris_names)`. */
  method DetectEyes(faces: Option<seq<seq<Landmark>>>, width: nat, height: nat) returns (r: Result<EyesResult, string>)
    ensures r == EyesOutcome(faces, width, height)
  {
    if faces.None? || |faces.value| == 0 {
      return Ok(EyesResult(StatusNoFace, []));
    }
    var meshes := faces.value;
    var indices, names := IrisIndices(), IrisNames();
    IrisIndicesContiguous();
    var eyeLandmarks: seq<NamedLandmark> := [];
    for f := 0 to |meshes|
      invariant IrisOfFaces(meshes[..f], width, height) == Ok(eyeLandmarks)
    {
      var face := meshes[f];
      ghost var before := eyeLandmarks;
      ghost var part: seq<NamedLandmark> := [];
      for k := 0 to |indices|
        invariant eyeLandmarks == before + part
        invariant SelectNamed(face, indices, names, k, width, height) == Ok(part)
      {
        var idx := indices[k];
        if idx >= |face| {
          assert |meshes[f]| < 480;
          return Err(IndexErrorText);
        }
        var entry := Named(names[k], Scale(face[idx], width, height));
        eyeLandmarks := eyeLandmarks + [entry];
        part := part + [entry];
      }
      IrisOfFacesExtend(meshes, f, width, height, before, part);
    }
    assert meshes[..|meshes|] == meshes;
    return Ok(EyesResult(StatusSuccess, eyeLandmarks));
  }
}
