/** `Utils.MathUtils`: the duration-to-frames conversion and the array pick. */
module MathUtils {
  import opened Common

  const DefaultFrameRate: int := 60

  /**
   * The frame rate `SecondsToFrames` converts with. `manager` is what
   * `GameManager.Instance` yields: `None` when there is no instance, else its
   * `TargetFrameRate`.
   */
  function FrameRate(manager: Option<int>): (r: int)
    ensures r > 0
    ensures manager.Some? && manager.value > 0 ==> r == manager.value
    ensures !(manager.Some? && manager.value > 0) ==> r == DefaultFrameRate
  {
    if manager.Some? && manager.value > 0 then manager.value else DefaultFrameRate
  }

  /**
   * `Mathf.RoundToInt`, which is `Math.Round` with its default midpoint rule:
   * the nearest integer, and the even one of two equally near.
   */
  function RoundToInt(x: real): (r: int)
    ensures -0.5 <= r as real - x <= 0.5
    ensures (r as real - x == 0.5 || x - r as real == 0.5) ==> r % 2 == 0
  {
    var f := x.Floor;
    var d := x - f as real;
    if d < 0.5 then f
    else if d > 0.5 then f + 1
    else if f % 2 == 0 then f else f + 1
  }

  /** The two properties of `RoundToInt` pin its result down. */
  lemma RoundToIntUnique(x: real, n: int)
    requires -0.5 <= n as real - x <= 0.5
    requires (n as real - x == 0.5 || x - n as real == 0.5) ==> n % 2 == 0
    ensures RoundToInt(x) == n
  {
  }

  /** `SecondsToFrames(seconds)` at time scale `timeScale`. */
  function SecondsToFrames(seconds: real, timeScale: real, manager: Option<int>): (r: int)
    ensures -0.5 <= r as real - seconds * timeScale * FrameRate(manager) as real <= 0.5
  {
    RoundToInt(seconds * timeScale * FrameRate(manager) as real)
  }

  /** The default flash (0.25 s at time scale 1 with no frame-rate setting) lasts 15 frames. */
  lemma DefaultFlashFrames()
    ensures SecondsToFrames(0.25, 1.0, None) == 15
    ensures SecondsToFrames(0.25, 1.0, Some(0)) == 15
  {
    RoundToIntUnique(0.25 * 1.0 * 60 as real, 15);
  }

  /** A zero duration, or a paused time scale, converts to zero frames. */
  lemma ZeroDurationNoFrames(seconds: real, timeScale: real, manager: Option<int>)
    requires seconds == 0.0 || timeScale == 0.0
    ensures SecondsToFrames(seconds, timeScale, manager) == 0
  {
    RoundToIntUnique(seconds * timeScale * FrameRate(manager) as real, 0);
  }

  /** A negative duration never yields a positive frame count. */
  lemma NegativeDurationNoFrames(seconds: real, timeScale: real, manager: Option<int>)
    requires seconds <= 0.0 && timeScale >= 0.0
    ensures SecondsToFrames(seconds, timeScale, manager) <= 0
  {
  }

  /**
   * `RandFromArray(array)`: 0 for an empty array, otherwise the element at the
   * index `Random.Range(0, array.Length)` drew, which is passed in as `pick`.
   */
  function RandFromArray(values: seq<int>, pick: nat): (r: int)
    requires values == [] || pick < |values|
    ensures values == [] ==> r == 0
    ensures values != [] ==> r in values
  {
    if |values| == 0 then 0 else values[pick]
  }
}
