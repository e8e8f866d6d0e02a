/**
 * The desktop demo's counter (people_counting.py, class PeopleCountingApp):
 * a start/stop flag, the number of people counted so far and the pose
 * landmarks seen last, all in normalised units. Each frame callback, while
 * detection runs and a frame was captured and a pose found, counts a new
 * person when nothing was retained yet or some landmark moved by more than
 * 0.2, and then retains the current landmarks.
 */
module DesktopPeopleCounting {
  import opened Wrappers
  import opened Landmarks

  /** The movement threshold, in normalised image units, on each axis. */
  const Limit: real := 0.2

  /** The counting state of the app: `running`, `people_count`, `previous_landmarks`. */
  datatype CounterState = CounterState(running: bool, peopleCount: nat,
                                       previousLandmarks: Option<seq<Landmark>>)

  /** The state the app starts in. */
  const Initial: CounterState := CounterState(false, 0, None)

  /** What reaches the counter: the start/stop button, or one frame callback. */
  datatype Event =
    | Toggle
    | Tick(frameRead: bool, pose: Option<seq<Landmark>>)  // pose: None when no pose was found

  /**
   * `is_new_person`: new when nothing was retained (`is None`), otherwise iff
   * some pair in `zip(current, previous)` moved strictly more than 0.2 on x or on y.
   */
  function IsNewPerson(current: seq<Landmark>, previous: Option<seq<Landmark>>): (r: bool)
    ensures previous.None? ==> r
    ensures previous.Some? ==>
              (r <==> exists i :: 0 <= i < |current| && i < |previous.value| &&
                                  (Abs(current[i].x - previous.value[i].x) > 0.2 ||
                                   Abs(current[i].y - previous.value[i].y) > 0.2))
  {
    if previous.None? then true
    else MovedBeyond(current, previous.value, Limit, Limit)
  }

  /** A tick reaches the counting step only while running, with a frame read and a pose found. */
  predicate Processes(s: CounterState, e: Event)
  {
    e.Tick? && s.running && e.frameRead && e.pose.Some?
  }

  /** The effect of one event on the counting state. */
  function Apply(s: CounterState, e: Event): (t: CounterState)
    ensures e.Toggle? ==> t == s.(running := !s.running)
    ensures e.Tick? ==> t.running == s.running
    ensures t.peopleCount == s.peopleCount || t.peopleCount == s.peopleCount + 1
    ensures t.peopleCount == s.peopleCount + 1 <==>
              Processes(s, e) && IsNewPerson(e.pose.value, s.previousLandmarks)
    ensures Processes(s, e) ==> t.previousLandmarks == e.pose
    ensures !Processes(s, e) ==> t.previousLandmarks == s.previousLandmarks
  {
    match e
    case Toggle => s.(running := !s.running)
    case Tick(frameRead, pose) =>
      if s.running && frameRead && pose.Some? then
        var current := pose.value;
        var counted := s.previousLandmarks.None? || IsNewPerson(current, s.previousLandmarks);
        CounterState(s.running, if counted then s.peopleCount + 1 else s.peopleCount, Some(current))
      else s
  }

  /** The state after a run of events, in order. */
  function Run(s: CounterState, events: seq<Event>): CounterState
    decreases |events|
  {
    if events == [] then s else Run(Apply(s, events[0]), events[1..])
  }

  /** The landmark sets a run of events actually compares, in order. */
  function Processed(s: CounterState, events: seq<Event>): seq<seq<Landmark>>
    decreases |events|
  {
    if events == [] then []
    else (if Processes(s, events[0]) then [events[0].pose.value] else [])
         + Processed(Apply(s, events[0]), events[1..])
  }

  /** The count never decreases, and grows by at most one per processed set. */
  lemma {:induction false} RunCountBounds(s: CounterState, events: seq<Event>)
    ensures s.peopleCount <= Run(s, events).peopleCount <= s.peopleCount + |Processed(s, events)|
    ensures |Processed(s, events)| <= |events|
    decreases |events|
  {
    if events != [] {
      RunCountBounds(Apply(s, events[0]), events[1..]);
    }
  }

  /** After a run, the retained set is the last one compared, or what was retained before. */
  lemma {:induction false} RunRetainsLastProcessed(s: CounterState, events: seq<Event>)
    ensures var p := Processed(s, events);
            Run(s, events).previousLandmarks == if p == [] then s.previousLandmarks else Some(p[|p| - 1])
    decreases |events|
  {
    if events != [] {
      RunRetainsLastProcessed(Apply(s, events[0]), events[1..]);
    }
  }

  /** With nothing retained, the first pose ever processed is counted. */
  lemma {:induction false} FirstPoseCounts(s: CounterState, events: seq<Event>)
    requires s.previousLandmarks.None?
    requires Processed(s, events) != []
    ensures Run(s, events).peopleCount >= s.peopleCount + 1
    decreases |events|
  {
    var t := Apply(s, events[0]);
    if Processes(s, events[0]) {
      RunCountBounds(t, events[1..]);
    } else {
      FirstPoseCounts(t, events[1..]);
    }
  }

  /** From the initial state, someone has been counted iff some pose was processed. */
  lemma CountPositiveIffProcessed(events: seq<Event>)
    ensures Run(Initial, events).peopleCount > 0 <==> Processed(Initial, events) != []
  {
    RunCountBounds(Initial, events);
    if Processed(Initial, events) != [] {
      FirstPoseCounts(Initial, events);
    }
  }

  /** The counter of the desktop app; the camera, the model and the GUI are left out. */
  class PeopleCountingApp {
    var running: bool
    var peopleCount: nat
    var previousLandmarks: Option<seq<Landmark>>

    function State(): CounterState
      reads this
    {
      CounterState(running, peopleCount, previousLandmarks)
    }

    constructor ()
      ensures State() == Initial
    {
      running := false;
      peopleCount := 0;
      previousLandmarks := None;
    }

    /** `toggle_detection`: flips `running` and nothing else of the counting state. */
    method ToggleDetection()
      modifies this
      ensures running == !old(running)
      ensures peopleCount == old(peopleCount) && previousLandmarks == old(previousLandmarks)
      ensures State() == Apply(old(State()), Toggle)
    {
      running := !running;
    }

    /**
     * The counting step of `update_frame`; `frameRead` is what `cap.read()`
     * reported, `pose` what the pose model found in that frame.
     */
    method UpdateFrame(frameRead: bool, pose: Option<seq<Landmark>>)
      modifies this
      ensures State() == Apply(old(State()), Tick(frameRead, pose))
      ensures old(peopleCount) <= peopleCount <= old(peopleCount) + 1
      ensures running == old(running)
    {
      if running {
        if frameRead {
          if pose.Some? {
            var current := pose.value;
            if previousLandmarks.None? || IsNewPerson(current, previousLandmarks) {
              peopleCount := peopleCount + 1;
            }
            previousLandmarks := Some(current);
          }
        }
      }
    }
  }
}
