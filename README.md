# Biomedical detection API: a verified model of its own logic

The repository wraps pre-trained vision models (pose, face mesh, hands, face
detection) behind an HTTP API and a few desktop demos. Its own logic is
what runs around those models. This project models that logic in Dafny and
proves properties of it:

- **Presence tracking, backend** (`PeopleCounting`). `detect_people` scales
  the pose landmarks to pixels. It then asks `is_new_person` whether any pair
  of `zip(current, previous)` moved strictly more than 128 px on x or 96 px on
  y. With nothing retained (`None` or an empty list), every set is new. The
  current set is returned both as `landmarks` and as the next
  `previous_landmarks`.
- **Presence tracking, desktop** (`DesktopPeopleCounting`). The class
  `PeopleCountingApp` has the fields `running`, `peopleCount` and
  `previousLandmarks`. `ToggleDetection` flips `running`. `UpdateFrame` is the
  counting step of the frame callback, with a threshold of 0.2 in normalised
  units. The pure `Apply`/`Run` functions give the meaning of a run of events.
- **Detector post-processing** (`ArmDetection`, `EyesDetection`,
  `ArmFingersDetection`). These take fixed landmark indices, pair them with
  names or ordinal positions, and scale x by the image width and y by its
  height, leaving z as it is. Each has its "nothing detected" reply. Each
  detector is an imperative method with the source's loops. It is proved
  equal to a specification function (`ArmOutcome`, `EyesOutcome`,
  `FingersOutcome`), whose own contract states the reply: when it is an
  error, how many entries it has and what each entry is.
- **API dispatch and global state** (`DetectionApi`). `detect` checks the
  endpoint name, decodes the upload and runs `process_detection_task`. That
  function dispatches to the detector and threads the global
  `previous_landmarks` through the "people" branch. The class
  `DetectionService` holds that global.

The vision models are inputs. `Inference` holds what they report for one
image: its size, an optional pose, optional face meshes, optional hands with
their handedness labels, and the head detector's outcome. A landmark is three
`real` coordinates. A Python `IndexError`, raised when a fixed index is past
the end of the model's list or a hand has no handedness entry, is an
`Err("list index out of range")`. `process_detection_task` turns that into a
500.

Where the source and its own comments disagree, the model follows the code.
Backend `is_new_person` uses `not previous_landmarks`, so an empty list counts
as "nothing retained". The desktop version only checks `is None`. A pose
message counts as detected whenever it is present. The face and hand lists
count as absent when they are `None` or empty. The iris indices run up to 479,
so a face mesh with fewer than 480 landmarks makes `detect_eyes` raise
`IndexError`. The API then reports a 500 (`EyesDetection.FaceIris`).

## Model

| member | source | states |
|---|---|---|
| `Landmarks.SelectNamed` | biomedical-backend/app/arm_detection.py:33-40 | zip of indices and names: fails with IndexError iff some index among the first n is past the end of the list; otherwise n entries, entry k named names[k] and taken from lms[indices[k]], scaled |
| `Landmarks.MovedBeyond` | biomedical-backend/app/people_counting.py:65-68 | the early-return loop over zip is true iff some index below both lengths has a pair moved strictly beyond the x or y limit |
| `Landmarks.MovedBeyondTruncates` | biomedical-backend/app/people_counting.py:65 | entries of the previous set beyond the length of the current set never change the result |
| `Landmarks.MovedBeyondSelf` | biomedical-backend/app/people_counting.py:65-68 | a set compared with itself never moves, for non-negative limits |
| `PeopleCounting.IsNewPerson` | biomedical-backend/app/people_counting.py:63-68 | with None or an empty retained set the result is true; otherwise true iff some pair below both lengths moved more than 128 on x or more than 96 on y |
| `PeopleCounting.DetectPeople` | biomedical-backend/app/people_counting.py:27-50 | no pose: status no_pose_detected, count 0, no landmarks, previous returned as it was; pose: status success, one scaled entry per model landmark in order, previous_landmarks equal to landmarks, count 1 iff is_new_person, else 0 |
| `PeopleCounting.FirstObservationCounts` | biomedical-backend/app/people_counting.py:63-64 | with None or an empty retained set, any pose counts 1 |
| `PeopleCounting.SameSetIsNotNew` | biomedical-backend/app/people_counting.py:65-68 | seeing the retained non-empty set again is not new |
| `PeopleCounting.LongerPreviousIgnored` | biomedical-backend/app/people_counting.py:65 | extra retained landmarks past the current set's length never matter |
| `PeopleCounting.LongerCurrentIgnored` | biomedical-backend/app/people_counting.py:65 | extra current landmarks past the retained set's length never matter |
| `PeopleCounting.ThresholdIsStrict` | biomedical-backend/app/people_counting.py:66 | a move of exactly 128 on x or 96 on y is not new; 128.1 or 96.1 is |
| `PeopleCounting.ThresholdIgnoresImageSize` | biomedical-backend/app/people_counting.py:36-66 | the same normalised movement is not new on a 640-wide image and new on a 1280-wide one, because the pixel thresholds do not scale |
| `PeopleCounting.HorizontalMoveScenario` | biomedical-backend/app/people_counting.py:36-50 | a 150 px horizontal move on 640x480 counts 1 and retains the current set |
| `DesktopPeopleCounting.IsNewPerson` | people_counting.py:76-83 | true when nothing is retained (None); otherwise true iff some zipped pair moved strictly more than 0.2 on x or on y |
| `DesktopPeopleCounting.Apply` | people_counting.py:35-53 | toggle negates running and changes nothing else; a tick keeps running, raises the count by at most one, and raises it iff running, a frame was read, a pose found and is_new_person holds; the retained set becomes the pose iff one was processed, otherwise it is unchanged |
| `DesktopPeopleCounting.RunCountBounds` | people_counting.py:48-51 | over any run of events the count never decreases and grows by at most the number of landmark sets processed, which is at most the number of events |
| `DesktopPeopleCounting.RunRetainsLastProcessed` | people_counting.py:48-53 | after any run the retained set is the last set processed, or the earlier one if none was |
| `DesktopPeopleCounting.FirstPoseCounts` | people_counting.py:50-51 | with nothing retained, a run that processes any pose raises the count |
| `DesktopPeopleCounting.CountPositiveIffProcessed` | people_counting.py:19-53 | from the initial state the count is positive iff some pose was processed |
| `DesktopPeopleCounting.PeopleCountingApp.constructor` | people_counting.py:19-21 | starts not running, count 0, nothing retained |
| `DesktopPeopleCounting.PeopleCountingApp.ToggleDetection` | people_counting.py:35-37 | running is negated; count and retained set are unchanged |
| `DesktopPeopleCounting.PeopleCountingApp.UpdateFrame` | people_counting.py:39-53 | the new state is Apply of the old one and the tick; the count grows by at most one; running is unchanged |
| `ArmDetection.ArmOutcome` | biomedical-backend/app/arm_detection.py:24-43 | no pose: no_pose_detected with no landmarks; a pose with 16 or fewer landmarks raises IndexError; otherwise success with exactly 6 entries, entry k named landmark_names[k] and taken from pose index [11,13,15,12,14,16][k], x scaled by width, y by height, z copied |
| `ArmDetection.ArmEntriesByName` | biomedical-backend/app/arm_detection.py:30-40 | the six entries, in order, are left shoulder, elbow, wrist (11, 13, 15), then right shoulder, elbow, wrist (12, 14, 16) |
| `ArmDetection.DetectArm` | biomedical-backend/app/arm_detection.py:24-43 | the loop over zip(indices, names) returns exactly ArmOutcome |
| `EyesDetection.IrisIndicesContiguous` | biomedical-backend/app/eyes_detection.py:30 | the iris indices are 468..479, contiguous and ascending |
| `EyesDetection.IrisNamesAligned` | biomedical-backend/app/eyes_detection.py:31 | names are left_iris_0..left_iris_5 then right_iris_0..right_iris_5, aligned with the indices |
| `EyesDetection.IrisNamesDistinct` | biomedical-backend/app/eyes_detection.py:31 | no two iris names are equal |
| `EyesDetection.FaceIris` | biomedical-backend/app/eyes_detection.py:34-41 | one face mesh fails with IndexError iff it has fewer than 480 landmarks; otherwise 12 entries, entry k named IrisNames[k] from landmark 468 + k, scaled |
| `EyesDetection.IrisOfFaces` | biomedical-backend/app/eyes_detection.py:33-41 | fails iff some face has fewer than 480 landmarks; otherwise 12 entries per face, face f being exactly entries 12f..12f+11 |
| `EyesDetection.IrisEntryAt` | biomedical-backend/app/eyes_detection.py:33-41 | entry 12f + k is iris landmark k of face f, named and scaled |
| `EyesDetection.EyesOutcome` | biomedical-backend/app/eyes_detection.py:24-44 | None or no faces: no_face_detected with no landmarks; with faces, IndexError iff some face mesh has fewer than 480 landmarks; otherwise success with 12 entries per face, entry 12f+k being iris landmark k of face f (index 468+k) named and scaled |
| `EyesDetection.DetectEyes` | biomedical-backend/app/eyes_detection.py:24-44 | the nested loop over faces and zip(indices, names) returns exactly EyesOutcome |
| `ArmFingersDetection.LowerHandedness` | biomedical-backend/app/arm_fingers_detection.py:30 | the model's labels Left and Right become left and right |
| `ArmFingersDetection.Enumerated` | biomedical-backend/app/arm_fingers_detection.py:32-37 | one entry per landmark; the index field equals the position; x scaled by width, y by height, z copied |
| `ArmFingersDetection.HandLabel` | biomedical-backend/app/arm_fingers_detection.py:30 | the label of hand i is the first handedness label of entry i, lower-cased; IndexError iff there is no such entry or it is empty |
| `ArmFingersDetection.HandsOf` | biomedical-backend/app/arm_fingers_detection.py:29-39 | fails iff some hand has no handedness label; otherwise one output hand per detected hand in order, hand i labelled from handedness i, with its enumerated landmarks |
| `ArmFingersDetection.FingersOutcome` | biomedical-backend/app/arm_fingers_detection.py:24-42 | None or no hands: no_hands_detected with no hands; with hands, IndexError iff some hand i has no handedness label; otherwise success with one entry per hand in order, hand i labelled with the lower-cased first label of handedness i and carrying its enumerated, scaled landmarks |
| `ArmFingersDetection.DetectArmFingers` | biomedical-backend/app/arm_fingers_detection.py:24-42 | the nested loops over hands and enumerate(landmarks) return exactly FingersOutcome |
| `DetectionApi.PeopleServed` | biomedical-backend/app/main.py:73-80 | the reply is status, count and landmarks only, with previous_landmarks stripped; the new global is the detector's previous_landmarks, so it is unchanged without a pose and equal to the scaled landmarks with one; count 1 iff is_new_person, and 0 otherwise (never more than 1) |
| `DetectionApi.ProcessTask` | biomedical-backend/app/main.py:61-84 | only "people" changes the global, to the detector's previous_landmarks; an unknown name gives 500 "Detection error: 400: Invalid endpoint"; a payload always comes from the named endpoint's detector; every error is a 500 |
| `DetectionApi.DispatchMatchesDetector` | biomedical-backend/app/main.py:65-80 | each of the five names runs exactly its own detector |
| `DetectionApi.HandleDetect` | biomedical-backend/app/main.py:130-149 | an unknown name is refused with 400 and the global unchanged; a failed decode gives 500 "Error processing request: ..."; for a valid name and a decoded upload the reply and the new global are exactly process_detection_task's, so its HTTPException (a 500) passes unchanged; only 400 and 500 occur; only a "people" request that finds a pose changes the global |
| `DetectionApi.InvalidEndpointIgnoresUpload` | biomedical-backend/app/main.py:132-134 | for an unknown name the reply does not depend on the upload at all, and it is a 400 |
| `DetectionApi.OnlyPeopleChangeGlobal` | biomedical-backend/app/main.py:73-75 | a run of requests none of which finds a pose on "people" leaves the global as it was |
| `DetectionApi.GlobalIsLastPersonSeen` | biomedical-backend/app/main.py:73-75 | after any run the global holds the scaled landmarks of the last "people" request that found a pose |
| `DetectionApi.DetectionService.constructor` | biomedical-backend/app/main.py:54 | the global previous_landmarks starts as None |
| `DetectionApi.DetectionService.ProcessDetectionTask` | biomedical-backend/app/main.py:61-84 | running the detectors' loops gives ProcessTask's reply and new global |
| `DetectionApi.DetectionService.Detect` | biomedical-backend/app/main.py:130-149 | gives HandleDetect's reply and new global |

## Left out

- The vision models (`pose.process`, `face_mesh.process`, `hands.process`, `face_detection.process`) are external libraries. Their outputs are inputs of the model, and exceptions raised inside them are not modelled.
- Image I/O is left out: OpenCV colour conversion, PIL decoding and reading the upload. A decode is an input that is either an `Inference` or the text of its error.
- The request queue (`detection_queue`, `queue_lock`, `process_queue`, `enqueue_detection`, `startup_event`) is concurrency and async scheduling. The model serves requests one at a time, in order, which is the order the single consumer gives them.
- CORS setup, `custom_openapi`, the root endpoint and the unused `process_image` helper are framework configuration with no logic to model.
- biomedical-backend/app/head_detection.py and the GUI demos are not part of this model. That covers the Tk window, webcam capture, drawing and `root.after` scheduling. The head detector's outcome is an input of the API.
- Floating point: coordinates are `real`. The backend thresholds `0.2 * 640` and `0.2 * 480` are exactly 128.0 and 96.0 as IEEE doubles too, so they agree with the model. The desktop threshold 0.2 is not exact as a double, and the scaling (`lm.x * image.shape[1]`) and the subtractions round; the model does not capture that rounding.
- The exact text of each exception is simplified. `str()` of an HTTPException is taken to be "status: detail", as the web framework renders it. The decoding error's text is an input.
- `ArmFingersDetection.Lower`: only lower-cases ASCII capitals, not the full Unicode mapping of `str.lower`. The model's labels are ASCII.
- A `None` handedness list next to detected hands, which would raise TypeError in the source, is not modelled. Handedness is always a list here.
