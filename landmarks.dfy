/**
 * Landmarks as the vision model reports them, and the two pieces of
 * post-processing every detector shares: scaling normalised coordinates to
 * pixels, and pairing fixed landmark indices with names (a `zip` over two
 * lists followed by list indexing, which raises `IndexError` when an index is
 * past the end of the model's list).
 */
module Landmarks {
  import opened Wrappers

  /** One model landmark: two planar coordinates and a relative depth. */
  datatype Landmark = Landmark(x: real, y: real, z: real)

  /** A landmark dictionary carrying a name (arm and iris landmarks). */
  datatype NamedLandmark = NamedLandmark(name: string, x: real, y: real, z: real)

  /** A landmark dictionary carrying its position in the model's list (hand landmarks). */
  datatype IndexedLandmark = IndexedLandmark(index: nat, x: real, y: real, z: real)

  /** What `str()` gives for the `IndexError` of an out-of-range list index. */
  const IndexErrorText: string := "list index out of range"

  /** x scaled by the image width (`shape[1]`), y by its height (`shape[0]`), z untouched. */
  function Scale(lm: Landmark, width: nat, height: nat): Landmark
  {
    Landmark(lm.x * width as real, lm.y * height as real, lm.z)
  }

  function Named(name: string, p: Landmark): NamedLandmark
  {
    NamedLandmark(name, p.x, p.y, p.z)
  }

  function Indexed(index: nat, p: Landmark): IndexedLandmark
  {
    IndexedLandmark(index, p.x, p.y, p.z)
  }

  /**
   * The first `n` pairs of `zip(indices, names)`, each landmark looked up in
   * `lms` and scaled; the loop stops with `IndexError` at the first index that
   * is not below `|lms|`.
   */
  function SelectNamed(lms: seq<Landmark>, indices: seq<nat>, names: seq<string>,
                       n: nat, width: nat, height: nat): (r: Result<seq<NamedLandmark>, string>)
    requires n <= |indices| && n <= |names|
    ensures r.Err? <==> exists k :: 0 <= k < n && indices[k] >= |lms|
    ensures r.Err? ==> r.error == IndexErrorText
    ensures r.Ok? ==> |r.value| == n
    ensures r.Ok? ==> forall k :: 0 <= k < n ==>
              r.value[k] == Named(names[k], Scale(lms[indices[k]], width, height))
  {
    if n == 0 then Ok([])
    else
      match SelectNamed(lms, indices, names, n - 1, width, height)
      case Err(e) => Err(e)
      case Ok(prefix) =>
        if indices[n - 1] >= |lms| then Err(IndexErrorText)
        else Ok(prefix + [Named(names[n - 1], Scale(lms[indices[n - 1]], width, height))])
  }

  function Abs(r: real): real
  {
    if r < 0.0 then -r else r
  }

  /** A pair moved further than the limits allow: strictly more on x, or strictly more on y. */
  predicate Exceeds(curr: Landmark, prev: Landmark, xLimit: real, yLimit: real)
  {
    Abs(curr.x - prev.x) > xLimit || Abs(curr.y - prev.y) > yLimit
  }

  /**
   * The early-return loop over `zip(current, previous)`: true at the first
   * pair that exceeds the limits, false once the shorter list is exhausted.
   */
  function MovedBeyond(current: seq<Landmark>, previous: seq<Landmark>, xLimit: real, yLimit: real): (r: bool)
    ensures r <==> exists i :: 0 <= i < |current| && i < |previous| &&
                               Exceeds(current[i], previous[i], xLimit, yLimit)
    decreases |current|
  {
    if |current| == 0 || |previous| == 0 then false
    else if Exceeds(current[0], previous[0], xLimit, yLimit) then true
    else
      var rest := MovedBeyond(current[1..], previous[1..], xLimit, yLimit);
      assert forall i :: 0 <= i < |current| - 1 && i < |previous| - 1 ==>
        current[1..][i] == current[i + 1] && previous[1..][i] == previous[i + 1];
      assert rest ==> exists i :: 1 <= i < |current| && i < |previous| &&
                                  Exceeds(current[i], previous[i], xLimit, yLimit);
      rest
  }

  /** Landmarks beyond the shorter list never influence the scan. */
  lemma MovedBeyondTruncates(current: seq<Landmark>, previous: seq<Landmark>, extra: seq<Landmark>,
                              xLimit: real, yLimit: real)
    requires |current| <= |previous|
    ensures MovedBeyond(current, previous + extra, xLimit, yLimit) == MovedBeyond(current, previous, xLimit, yLimit)
  {
  }

  /** A set compared with itself never moves, whatever non-negative limits are used. */
  lemma MovedBeyondSelf(lms: seq<Landmark>, xLimit: real, yLimit: real)
    requires xLimit >= 0.0 && yLimit >= 0.0
    ensures !MovedBeyond(lms, lms, xLimit, yLimit)
  {
  }
}
