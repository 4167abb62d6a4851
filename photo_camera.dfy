/**
 * `PlayerPhotoCamera`: a right-button hold timer that flashes on a short
 * press and flashes and takes a photo on a long one, a capture buffer that
 * is reused while the render texture keeps its size, and a display routine
 * that shows the latest photo on a quad for a while.
 *
 * Float time is taken as `real`. Coroutines are values stored on the object:
 * `flashes` holds the suspended `FlashOnly` and `FlashAndTakePhoto` runs
 * (nothing keeps their handles, so several can be live at once), `shows`
 * the suspended `ShowPhotoRoutine` runs. `Update` is the engine's call of
 * `Update` for one frame and `ResumeRoutines` its resumption of suspended
 * routines after it; a routine suspended during the current frame carries
 * `newThisFrame` and waits for the next one.
 */
module PhotoCameras {
  import opened Common

  // ---------------------------------------------------------------- hold timer

  /** `GetMouseButtonDown(1)`, `GetMouseButton(1)` and `GetMouseButtonUp(1)` in one frame. */
  datatype MouseInput = MouseInput(down: bool, held: bool, up: bool)

  /** `isHolding` and `holdTimer`. */
  datatype HoldState = HoldState(isHolding: bool, holdTimer: real)

  /** The routine one `Update` starts, if any. */
  datatype Flash = NoFlash | FlashOnly | FlashAndTakePhoto

  /**
   * One `Update`, on the hold state alone: a press restarts the timer, a
   * held button adds the frame's `dt`, reaching `holdTime` starts
   * `FlashAndTakePhoto` and ends the hold, and releasing while still holding
   * below `holdTime` starts `FlashOnly`.
   */
  function HoldStep(s: HoldState, input: MouseInput, dt: real, holdTime: real): (r: (HoldState, Flash))
    ensures r.0.holdTimer
      == (if input.down then 0.0 else s.holdTimer) + (if (input.down || s.isHolding) && input.held then dt else 0.0)
    ensures r.1 == FlashAndTakePhoto <==> (input.down || s.isHolding) && input.held && r.0.holdTimer >= holdTime
    ensures r.1 == FlashOnly <==> input.up && (input.down || s.isHolding) && r.0.holdTimer < holdTime
    ensures r.0.isHolding <==> !input.up && (input.down || s.isHolding) && r.1 != FlashAndTakePhoto
  {
    var pressed := if input.down then HoldState(true, 0.0) else s;
    var photo := pressed.isHolding && input.held && pressed.holdTimer + dt >= holdTime;
    var timed := if pressed.isHolding && input.held then HoldState(!photo, pressed.holdTimer + dt) else pressed;
    var flashOnly := input.up && timed.isHolding && timed.holdTimer < holdTime;
    var next := if input.up then timed.(isHolding := false) else timed;
    (next, if photo then FlashAndTakePhoto else if flashOnly then FlashOnly else NoFlash)
  }

  /** A frame as `Update` sees it: the button events and `Time.deltaTime`. */
  datatype Frame = Frame(input: MouseInput, dt: real)

  /** How many routines a run of frames starts. */
  function Starts(s: HoldState, frames: seq<Frame>, holdTime: real): nat
    decreases |frames|
  {
    if frames == [] then 0
    else
      var step := HoldStep(s, frames[0].input, frames[0].dt, holdTime);
      (if step.1 == NoFlash then 0 else 1) + Starts(step.0, frames[1..], holdTime)
  }

  /** Without a hold in progress and without a press, nothing starts. */
  lemma {:induction false} NoStartWithoutPress(s: HoldState, frames: seq<Frame>, holdTime: real)
    requires !s.isHolding
    requires forall k :: 0 <= k < |frames| ==> !frames[k].input.down
    ensures Starts(s, frames, holdTime) == 0
  {
    if frames != [] {
      var step := HoldStep(s, frames[0].input, frames[0].dt, holdTime);
      assert !step.0.isHolding && step.1 == NoFlash;
      NoStartWithoutPress(step.0, frames[1..], holdTime);
    }
  }

  /**
   * One press starts at most one routine: from the frame of a press (or
   * any state) up to the next press, `FlashOnly` and `FlashAndTakePhoto`
   * together start at most once, because each ends the hold.
   */
  lemma {:induction false} AtMostOneStartPerPress(s: HoldState, frames: seq<Frame>, holdTime: real)
    requires forall k :: 0 < k < |frames| ==> !frames[k].input.down
    ensures Starts(s, frames, holdTime) <= 1
    decreases |frames|
  {
    if frames != [] {
      var step := HoldStep(s, frames[0].input, frames[0].dt, holdTime);
      var rest := frames[1..];
      assert forall k :: 0 <= k < |rest| ==> rest[k] == frames[k + 1];
      if step.1 != NoFlash {
        NoStartWithoutPress(step.0, rest, holdTime);
      } else {
        AtMostOneStartPerPress(step.0, rest, holdTime);
      }
    }
  }

  // ------------------------------------------------------------ flash routines

  /**
   * Where a flash routine is suspended: `FlashOnly` in its
   * `WaitForSeconds(flashDuration)`, `FlashAndTakePhoto` at its
   * `yield return null` before the capture or in its wait after it.
   */
  datatype Stage = FlashWait | AwaitFrame | PhotoWait

  /** A suspended flash routine and the time its wait has seen so far. */
  datatype FlashRun = FlashRun(stage: Stage, elapsed: real, newThisFrame: bool)

  /**
   * What a flash routine becomes when the engine resumes it in a frame of
   * length `dt`: `None` when it switches the light off and ends.
   */
  function Resumed(r: FlashRun, dt: real, flashDuration: real): (next: Option<FlashRun>)
    ensures next.None? <==> !r.newThisFrame && r.stage != AwaitFrame && r.elapsed + dt >= flashDuration
    ensures next.Some? ==> !next.value.newThisFrame
    ensures next.Some? && r.stage == AwaitFrame && !r.newThisFrame ==> next.value == FlashRun(PhotoWait, 0.0, false)
  {
    if r.newThisFrame then Some(r.(newThisFrame := false))
    else if r.stage == AwaitFrame then Some(FlashRun(PhotoWait, 0.0, false))
    else if r.elapsed + dt >= flashDuration then None
    else Some(r.(elapsed := r.elapsed + dt))
  }

  /** A flash routine after the engine resumed it in each of the frames `dts`. */
  function FlashAfter(r: FlashRun, dts: seq<real>, flashDuration: real): Option<FlashRun>
    decreases |dts|
  {
    if dts == [] then Some(r)
    else
      var next := Resumed(r, dts[0], flashDuration);
      if next.None? then None else FlashAfter(next.value, dts[1..], flashDuration)
  }

  /**
   * The flash stays on for `flashDuration`: a routine in one of its waits
   * is still live after frames adding up to less than the rest of
   * `flashDuration`, and has switched the light off once they reach it.
   */
  lemma {:induction false} FlashLasts(r: FlashRun, dts: seq<real>, flashDuration: real)
    requires !r.newThisFrame && r.stage != AwaitFrame
    requires forall k :: 0 <= k < |dts| ==> dts[k] >= 0.0
    ensures FlashAfter(r, dts, flashDuration).Some? <==> r.elapsed + Sum(dts) < flashDuration || |dts| == 0
    decreases |dts|
  {
    if dts != [] {
      var rest := dts[1..];
      assert forall k :: 0 <= k < |rest| ==> rest[k] == dts[k + 1];
      SumNonNegative(rest);
      var next := Resumed(r, dts[0], flashDuration);
      if next.Some? {
        FlashLasts(next.value, rest, flashDuration);
        if rest == [] {
          assert Sum(dts) == dts[0];
        }
      }
    }
  }

  /**
   * `FlashAndTakePhoto` with a light: started in one frame, it captures
   * when it resumes in the next, and then waits out `flashDuration`.
   */
  lemma FlashAndTakePhotoTimeline(dt1: real, dt2: real, flashDuration: real)
    ensures var r0 := FlashRun(AwaitFrame, 0.0, true);
      && Resumed(r0, dt1, flashDuration) == Some(FlashRun(AwaitFrame, 0.0, false))
      && CapturesNow(FlashRun(AwaitFrame, 0.0, false)) && !CapturesNow(r0)
      && Resumed(FlashRun(AwaitFrame, 0.0, false), dt2, flashDuration) == Some(FlashRun(PhotoWait, 0.0, false))
  {
  }

  /** The resumption captures: `FlashAndTakePhoto` passes its `yield return null`. */
  predicate CapturesNow(r: FlashRun)
  {
    !r.newThisFrame && r.stage == AwaitFrame
  }

  /** The routines still suspended after every run in `runs` was resumed once, in order. */
  function Survivors(runs: seq<FlashRun>, dt: real, flashDuration: real): (r: seq<FlashRun>)
    ensures |r| <= |runs|
  {
    if runs == [] then []
    else
      var last := Resumed(runs[|runs| - 1], dt, flashDuration);
      Survivors(runs[..|runs| - 1], dt, flashDuration) + (if last.Some? then [last.value] else [])
  }

  /** How many of `runs` capture when resumed. */
  function CaptureCount(runs: seq<FlashRun>): nat
  {
    if runs == [] then 0
    else CaptureCount(runs[..|runs| - 1]) + (if CapturesNow(runs[|runs| - 1]) then 1 else 0)
  }

  /** How many `FlashAndTakePhoto` runs have not captured yet. */
  function AwaitingCount(runs: seq<FlashRun>): nat
  {
    if runs == [] then 0
    else AwaitingCount(runs[..|runs| - 1]) + (if runs[|runs| - 1].stage == AwaitFrame then 1 else 0)
  }

  /** After the resumption no routine is new this frame. */
  lemma {:induction false} SurvivorsNotFresh(runs: seq<FlashRun>, dt: real, flashDuration: real)
    ensures forall k :: 0 <= k < |Survivors(runs, dt, flashDuration)| ==> !Survivors(runs, dt, flashDuration)[k].newThisFrame
  {
    if runs != [] {
      SurvivorsNotFresh(runs[..|runs| - 1], dt, flashDuration);
    }
  }

  /**
   * Each run that captures leaves the stage that awaits the capture, and
   * no other run enters or leaves it.
   */
  lemma {:induction false} AwaitingAfterResume(runs: seq<FlashRun>, dt: real, flashDuration: real)
    ensures AwaitingCount(Survivors(runs, dt, flashDuration)) + CaptureCount(runs) == AwaitingCount(runs)
  {
    if runs != [] {
      var init := runs[..|runs| - 1];
      var last := Resumed(runs[|runs| - 1], dt, flashDuration);
      AwaitingAfterResume(init, dt, flashDuration);
      AwaitingAppend(Survivors(init, dt, flashDuration), if last.Some? then [last.value] else []);
    }
  }

  lemma {:induction false} AwaitingAppend(s: seq<FlashRun>, t: seq<FlashRun>)
    ensures AwaitingCount(s + t) == AwaitingCount(s) + AwaitingCount(t)
  {
    if t != [] {
      AwaitingAppend(s, t[..|t| - 1]);
      assert (s + t)[..|s + t| - 1] == s + t[..|t| - 1];
    } else {
      assert s + t == s;
    }
  }

  /**
   * The flash routine a start in `Update` leaves suspended: `FlashOnly` in
   * its wait, `FlashAndTakePhoto` at its frame wait, and none without a
   * flash light (`FlashOnly` then does nothing, and `FlashAndTakePhoto`
   * takes its photo before returning).
   */
  function StartedRun(flash: Flash, hasFlashLight: bool): (r: seq<FlashRun>)
    ensures r != [] <==> flash != NoFlash && hasFlashLight
    ensures forall k :: 0 <= k < |r| ==> r[k].newThisFrame && r[k].elapsed == 0.0
    ensures flash == FlashOnly && hasFlashLight ==> r == [FlashRun(FlashWait, 0.0, true)]
    ensures flash == FlashAndTakePhoto && hasFlashLight ==> r == [FlashRun(AwaitFrame, 0.0, true)]
  {
    if flash == NoFlash || !hasFlashLight then []
    else if flash == FlashOnly then [FlashRun(FlashWait, 0.0, true)]
    else [FlashRun(AwaitFrame, 0.0, true)]
  }

  /** A routine started in this frame is not resumed in it: it captures nothing and ends nothing. */
  lemma StartedRunWaits(runs: seq<FlashRun>, flash: Flash, hasFlashLight: bool, dt: real, flashDuration: real)
    ensures CaptureCount(runs + StartedRun(flash, hasFlashLight)) == CaptureCount(runs)
    ensures SomeEnds(runs + StartedRun(flash, hasFlashLight), dt, flashDuration) <==> SomeEnds(runs, dt, flashDuration)
  {
    var t := StartedRun(flash, hasFlashLight);
    var started := runs + t;
    if t == [] {
      assert started == runs;
    } else {
      assert started[..|started| - 1] == runs;
      if SomeEnds(started, dt, flashDuration) {
        var k :| 0 <= k < |started| && Resumed(started[k], dt, flashDuration).None?;
        assert k < |runs| && started[k] == runs[k];
      }
      if SomeEnds(runs, dt, flashDuration) {
        var k :| 0 <= k < |runs| && Resumed(runs[k], dt, flashDuration).None?;
        assert started[k] == runs[k];
      }
    }
  }

  /** A routine started in this frame survives it, unchanged but for its mark, after the older ones. */
  lemma StartedRunSurvives(runs: seq<FlashRun>, flash: Flash, hasFlashLight: bool, dt: real, flashDuration: real)
    requires flash != NoFlash && hasFlashLight
    ensures Survivors(runs + StartedRun(flash, hasFlashLight), dt, flashDuration)
      == Survivors(runs, dt, flashDuration) + [StartedRun(flash, hasFlashLight)[0].(newThisFrame := false)]
  {
    var started := runs + StartedRun(flash, hasFlashLight);
    assert started[..|started| - 1] == runs;
  }

  /** Some routine in `runs` switches the light off when resumed. */
  predicate SomeEnds(runs: seq<FlashRun>, dt: real, flashDuration: real)
  {
    exists k :: 0 <= k < |runs| && Resumed(runs[k], dt, flashDuration).None?
  }

  /** When no routine ends, the resumption keeps every one of them. */
  lemma {:induction false} SurvivorsKeepAll(runs: seq<FlashRun>, dt: real, flashDuration: real)
    requires !SomeEnds(runs, dt, flashDuration)
    ensures |Survivors(runs, dt, flashDuration)| == |runs|
  {
    if runs != [] {
      var init := runs[..|runs| - 1];
      assert !SomeEnds(init, dt, flashDuration) by {
        forall k | 0 <= k < |init|
          ensures Resumed(init[k], dt, flashDuration).Some?
        {
          assert init[k] == runs[k];
        }
      }
      SurvivorsKeepAll(init, dt, flashDuration);
      assert Resumed(runs[|runs| - 1], dt, flashDuration).Some?;
    }
  }

  // ----------------------------------------------------------------- display

  /** A texture allocated by `TakePhoto`, numbered in allocation order. */
  datatype Photo = Photo(width: nat, height: nat, serial: nat)

  /** `ShowPhotoRoutine` suspended in its `WaitForSeconds(photoDuration)`. */
  datatype ShowRun = ShowRun(id: nat, elapsed: real, newThisFrame: bool)

  /**
   * What a display routine becomes when the engine resumes it in a frame
   * of length `dt`: `None` when its wait has seen `photoDuration`, hides
   * the quad and ends.
   */
  function ShowResumed(r: ShowRun, dt: real, photoDuration: real): (next: Option<ShowRun>)
    ensures next.None? <==> !r.newThisFrame && r.elapsed + dt >= photoDuration
    ensures next.Some? ==> next.value.id == r.id && !next.value.newThisFrame
    ensures next.Some? && !r.newThisFrame ==> next.value.elapsed == r.elapsed + dt
  {
    if r.newThisFrame then Some(r.(newThisFrame := false))
    else if r.elapsed + dt >= photoDuration then None
    else Some(r.(elapsed := r.elapsed + dt))
  }

  /** The total length of a run of frames. */
  function Sum(dts: seq<real>): real
  {
    if dts == [] then 0.0 else dts[0] + Sum(dts[1..])
  }

  lemma {:induction false} SumNonNegative(dts: seq<real>)
    requires forall k :: 0 <= k < |dts| ==> dts[k] >= 0.0
    ensures Sum(dts) >= 0.0
  {
    if dts != [] {
      assert forall k :: 0 <= k < |dts| - 1 ==> dts[1..][k] == dts[k + 1];
      SumNonNegative(dts[1..]);
    }
  }

  /** A display routine after the engine resumed it in each of the frames `dts`. */
  function ShowAfter(r: ShowRun, dts: seq<real>, photoDuration: real): Option<ShowRun>
    decreases |dts|
  {
    if dts == [] then Some(r)
    else
      var next := ShowResumed(r, dts[0], photoDuration);
      if next.None? then None else ShowAfter(next.value, dts[1..], photoDuration)
  }

  /**
   * The quad stays up for `photoDuration`: a display routine whose wait
   * has seen `elapsed` is still live after frames adding up to less than
   * the rest of `photoDuration`, and over once they reach it.
   */
  lemma {:induction false} ShowLasts(r: ShowRun, dts: seq<real>, photoDuration: real)
    requires !r.newThisFrame
    requires forall k :: 0 <= k < |dts| ==> dts[k] >= 0.0
    ensures ShowAfter(r, dts, photoDuration).Some? <==> r.elapsed + Sum(dts) < photoDuration || |dts| == 0
    decreases |dts|
  {
    if dts != [] {
      var rest := dts[1..];
      assert forall k :: 0 <= k < |rest| ==> rest[k] == dts[k + 1];
      SumNonNegative(rest);
      var next := ShowResumed(r, dts[0], photoDuration);
      if next.Some? {
        ShowLasts(next.value, rest, photoDuration);
        if rest == [] {
          assert Sum(dts) == dts[0];
        }
      }
    }
  }

  /** `StopCoroutine` on the handle of routine `id`: that routine, if still live, is gone. */
  function WithoutRoutine(shows: seq<ShowRun>, id: nat): (r: seq<ShowRun>)
    ensures forall k :: 0 <= k < |r| ==> r[k] in shows && r[k].id != id
    ensures forall k :: 0 <= k < |shows| && shows[k].id != id ==> shows[k] in r
    ensures (forall k :: 0 <= k < |shows| ==> shows[k].id == id) ==> r == []
  {
    if shows == [] then []
    else WithoutRoutine(shows[..|shows| - 1], id) + (if shows[|shows| - 1].id == id then [] else [shows[|shows| - 1]])
  }

  /**
   * The capture buffer: it exists once a photo was taken, and it is the
   * texture allocated last.
   */
  ghost predicate BufferOk(lastPhoto: Option<Photo>, allocations: nat, photosTaken: nat)
  {
    && (lastPhoto.None? <==> allocations == 0)
    && (lastPhoto.Some? ==> lastPhoto.value.serial == allocations - 1)
    && (photosTaken == 0 ==> lastPhoto.None?)
  }

  /**
   * The display routine: at most one is live, `photoRoutine` names it, its
   * number was given out, and the quad is active while it runs.
   */
  ghost predicate ShowsOk(shows: seq<ShowRun>, photoRoutine: Handle, nextId: nat, quadActive: bool)
  {
    && |shows| <= 1
    && (|shows| == 1 ==> photoRoutine == Routine(shows[0].id) && shows[0].id < nextId && quadActive)
  }

  class PlayerPhotoCamera {
    /** `photoCamera`, `renderTexture`, `photoQuad` and `flashLight` are set in the scene. */
    const hasPhotoCamera: bool
    const hasRenderTexture: bool
    const hasQuad: bool
    const hasFlashLight: bool
    const photoDuration: real
    const flashDuration: real
    const holdTime: real

    /** `MonoBehaviour.enabled`. */
    var enabled: bool
    /** The engine has called `Start`. */
    var started: bool
    /** `photoCamera.enabled`, the quad's active state and `flashLight.enabled`. */
    var cameraEnabled: bool
    var quadActive: bool
    var lightOn: bool
    /** `photoMaterial` is set. */
    var hasMaterial: bool
    var isHolding: bool
    var holdTimer: real
    var lastPhoto: Option<Photo>
    /** How many textures `TakePhoto` has allocated. */
    var allocations: nat
    /** How many times `TakePhoto` ran. */
    var photosTaken: nat
    /** How many `FlashAndTakePhoto` runs started. */
    ghost var photoRunsStarted: nat
    /** `photoCamera.targetTexture` and `RenderTexture.active` are the render texture. */
    var cameraTargetSet: bool
    var activeTextureSet: bool
    /** The photo `photoMaterial.mainTexture` shows, by serial. */
    var shownPhoto: Option<nat>
    var photoRoutine: Handle
    var shows: seq<ShowRun>
    var flashes: seq<FlashRun>
    /** The number the next `StartCoroutine(ShowPhotoRoutine())` gives its routine. */
    var nextId: nat

    /** `Start` got past its check: both references it needs are set. */
    predicate Ready()
      reads this`started
    {
      started && hasPhotoCamera && hasRenderTexture
    }

    /**
     * The capture buffer and the display: the shown photo is the latest
     * one, the display routine `photoRoutine` names is the only one live
     * and keeps the quad active, and the render targets are reset.
     */
    ghost predicate DisplayValid()
      reads this`started, this`enabled, this`hasMaterial, this`lastPhoto, this`allocations, this`photosTaken,
            this`shownPhoto, this`shows, this`photoRoutine, this`nextId, this`quadActive,
            this`cameraTargetSet, this`activeTextureSet
    {
      && (!Ready() ==> shows == [] && photosTaken == 0 && !hasMaterial)
      && (started && !Ready() ==> !enabled)
      && (Ready() ==> hasMaterial == hasQuad)
      && BufferOk(lastPhoto, allocations, photosTaken)
      && ShowsOk(shows, photoRoutine, nextId, quadActive)
      && (hasMaterial && lastPhoto.Some? ==> shownPhoto == Some(lastPhoto.value.serial))
      && (!hasMaterial ==> shownPhoto.None?)
      && !cameraTargetSet && !activeTextureSet
    }

    /**
     * The flash routines: none without a flash light, one live while the
     * light is on, and every `FlashAndTakePhoto` run either still awaiting
     * its capture or counted once in `photosTaken`.
     */
    ghost predicate FlashValid()
      reads this`started, this`flashes, this`photosTaken, this`photoRunsStarted, this`lightOn
    {
      && (!Ready() ==> flashes == [] && photoRunsStarted == 0)
      && (!hasFlashLight ==> !lightOn && flashes == [])
      && (Ready() && lightOn ==> |flashes| > 0)
      && photosTaken + AwaitingCount(flashes) == photoRunsStarted
    }

    ghost predicate Valid()
      reads this`started, this`enabled, this`hasMaterial, this`lastPhoto, this`allocations, this`photosTaken,
            this`shownPhoto, this`shows, this`photoRoutine, this`nextId, this`quadActive,
            this`cameraTargetSet, this`activeTextureSet, this`flashes, this`photoRunsStarted, this`lightOn
    {
      DisplayValid() && FlashValid()
    }

    /** The component as the scene holds it, before the engine calls `Start`. */
    constructor (hasPhotoCamera: bool, hasRenderTexture: bool, hasQuad: bool, hasFlashLight: bool,
                 photoDuration: real, flashDuration: real, holdTime: real,
                 cameraEnabled: bool, quadActive: bool, lightOn: bool)
      ensures Valid() && !started && enabled && !isHolding && holdTimer == 0.0
      ensures this.hasPhotoCamera == hasPhotoCamera && this.hasRenderTexture == hasRenderTexture
      ensures this.hasQuad == hasQuad && this.hasFlashLight == hasFlashLight
      ensures this.photoDuration == photoDuration && this.flashDuration == flashDuration && this.holdTime == holdTime
      ensures this.cameraEnabled == cameraEnabled && this.quadActive == quadActive
      ensures this.lightOn == (hasFlashLight && lightOn)
    {
      this.hasPhotoCamera := hasPhotoCamera;
      this.hasRenderTexture := hasRenderTexture;
      this.hasQuad := hasQuad;
      this.hasFlashLight := hasFlashLight;
      this.photoDuration := photoDuration;
      this.flashDuration := flashDuration;
      this.holdTime := holdTime;
      enabled := true;
      started := false;
      this.cameraEnabled := cameraEnabled;
      this.quadActive := quadActive;
      this.lightOn := hasFlashLight && lightOn;
      hasMaterial := false;
      isHolding := false;
      holdTimer := 0.0;
      lastPhoto := None;
      allocations := 0;
      photosTaken := 0;
      photoRunsStarted := 0;
      cameraTargetSet := false;
      activeTextureSet := false;
      shownPhoto := None;
      photoRoutine := Null;
      shows := [];
      flashes := [];
      nextId := 0;
    }

    /**
     * `Start`: without the photo camera or the render texture the component
     * disables itself and changes nothing else; otherwise the photo camera,
     * the quad and the flash light start off, and the quad's material is kept.
     */
    method Start()
      requires Valid() && !started && enabled
      modifies this`started, this`enabled, this`cameraEnabled, this`quadActive, this`hasMaterial, this`lightOn
      ensures Valid() && started
      ensures !(hasPhotoCamera && hasRenderTexture) ==>
        && !enabled && !hasMaterial && cameraEnabled == old(cameraEnabled)
        && quadActive == old(quadActive) && lightOn == old(lightOn)
      ensures hasPhotoCamera && hasRenderTexture ==>
        && enabled && !cameraEnabled && hasMaterial == hasQuad && !lightOn
        && (hasQuad ==> !quadActive) && (!hasQuad ==> quadActive == old(quadActive))
    {
      started := true;
      if !hasPhotoCamera || !hasRenderTexture {
        enabled := false;
        return;
      }
      cameraEnabled := false;
      if hasQuad {
        quadActive := false;
        hasMaterial := true;
      }
      if hasFlashLight {
        lightOn := false;
      }
    }

    /**
     * `TakePhoto` with a render texture of `width` by `height`: the capture
     * buffer is reallocated only when there is none or its size differs,
     * the camera's and the engine's render targets are reset, and with a
     * quad the photo is shown by a new `ShowPhotoRoutine` after the previous
     * one is stopped.
     */
    method TakePhoto(width: nat, height: nat)
      requires DisplayValid() && Ready()
      modifies this`lastPhoto, this`allocations, this`photosTaken, this`cameraTargetSet, this`activeTextureSet,
               this`shownPhoto, this`shows, this`photoRoutine, this`nextId, this`quadActive
      ensures DisplayValid() && photosTaken == old(photosTaken) + 1
      ensures lastPhoto.Some? && lastPhoto.value.width == width && lastPhoto.value.height == height
      ensures old(lastPhoto).Some? && old(lastPhoto).value.width == width && old(lastPhoto).value.height == height ==>
        lastPhoto == old(lastPhoto) && allocations == old(allocations)
      ensures !(old(lastPhoto).Some? && old(lastPhoto).value.width == width && old(lastPhoto).value.height == height) ==>
        lastPhoto == Some(Photo(width, height, old(allocations))) && allocations == old(allocations) + 1
      ensures hasQuad ==>
        && shownPhoto == Some(lastPhoto.value.serial) && quadActive
        && shows == [ShowRun(old(nextId), 0.0, true)] && photoRoutine == Routine(old(nextId)) && nextId == old(nextId) + 1
      ensures !hasQuad ==>
        && shownPhoto == old(shownPhoto) && quadActive == old(quadActive)
        && shows == old(shows) && photoRoutine == old(photoRoutine) && nextId == old(nextId)
    {
      Capture(width, height);
      if hasQuad && hasMaterial {
        shownPhoto := Some(lastPhoto.value.serial);
        ShowPhoto();
      }
    }

    /** The render and the read-back into `lastPhoto`, which is reallocated only when it cannot hold the image. */
    method Capture(width: nat, height: nat)
      requires BufferOk(lastPhoto, allocations, photosTaken)
      modifies this`lastPhoto, this`allocations, this`photosTaken, this`cameraTargetSet, this`activeTextureSet
      ensures BufferOk(lastPhoto, allocations, photosTaken) && photosTaken == old(photosTaken) + 1
      ensures !cameraTargetSet && !activeTextureSet
      ensures old(lastPhoto).Some? && old(lastPhoto).value.width == width && old(lastPhoto).value.height == height ==>
        lastPhoto == old(lastPhoto) && allocations == old(allocations)
      ensures !(old(lastPhoto).Some? && old(lastPhoto).value.width == width && old(lastPhoto).value.height == height) ==>
        lastPhoto == Some(Photo(width, height, old(allocations))) && allocations == old(allocations) + 1
    {
      cameraTargetSet := true;
      activeTextureSet := true;
      if lastPhoto.None? || lastPhoto.value.width != width || lastPhoto.value.height != height {
        lastPhoto := Some(Photo(width, height, allocations));
        allocations := allocations + 1;
      }
      photosTaken := photosTaken + 1;
      cameraTargetSet := false;
      activeTextureSet := false;
    }

    /** `StopCoroutine(photoRoutine)` when set, then `photoRoutine = StartCoroutine(ShowPhotoRoutine())`. */
    method ShowPhoto()
      requires ShowsOk(shows, photoRoutine, nextId, quadActive)
      modifies this`shows, this`photoRoutine, this`nextId, this`quadActive
      ensures ShowsOk(shows, photoRoutine, nextId, quadActive) && quadActive
      ensures shows == [ShowRun(old(nextId), 0.0, true)] && photoRoutine == Routine(old(nextId)) && nextId == old(nextId) + 1
    {
      if photoRoutine != Null {
        shows := WithoutRoutine(shows, photoRoutine.id);
      }
      var id := nextId;
      nextId := nextId + 1;
      quadActive := true;
      shows := shows + [ShowRun(id, 0.0, true)];
      photoRoutine := Routine(id);
    }

    /** `StartCoroutine(FlashAndTakePhoto())` up to its first `yield`. */
    method StartFlashAndTakePhoto(width: nat, height: nat)
      requires Valid() && Ready()
      modifies this`lastPhoto, this`allocations, this`photosTaken, this`cameraTargetSet, this`activeTextureSet,
               this`shownPhoto, this`shows, this`photoRoutine, this`nextId, this`quadActive,
               this`lightOn, this`flashes, this`photoRunsStarted
      ensures Valid() && photoRunsStarted == old(photoRunsStarted) + 1
      ensures hasFlashLight ==>
        && lightOn && flashes == old(flashes) + [FlashRun(AwaitFrame, 0.0, true)]
        && photosTaken == old(photosTaken) && lastPhoto == old(lastPhoto) && shows == old(shows)
      ensures !hasFlashLight ==>
        && flashes == old(flashes) && photosTaken == old(photosTaken) + 1
        && lastPhoto.Some? && lastPhoto.value.width == width && lastPhoto.value.height == height
    {
      if hasFlashLight {
        LightForPhoto();
      } else {
        PhotoWithoutLight(width, height);
      }
    }

    /** `FlashAndTakePhoto` with a flash light: the light goes on and the routine waits for the next frame. */
    method LightForPhoto()
      requires FlashValid() && Ready() && hasFlashLight
      modifies this`lightOn, this`flashes, this`photoRunsStarted
      ensures FlashValid() && photoRunsStarted == old(photoRunsStarted) + 1
      ensures lightOn && flashes == old(flashes) + [FlashRun(AwaitFrame, 0.0, true)]
    {
      photoRunsStarted := photoRunsStarted + 1;
      lightOn := true;
      AwaitingAppend(flashes, [FlashRun(AwaitFrame, 0.0, true)]);
      flashes := flashes + [FlashRun(AwaitFrame, 0.0, true)];
    }

    /** `FlashAndTakePhoto` without a flash light: it never yields, and takes its photo at once. */
    method PhotoWithoutLight(width: nat, height: nat)
      requires Valid() && Ready() && !hasFlashLight
      modifies this`lastPhoto, this`allocations, this`photosTaken, this`cameraTargetSet, this`activeTextureSet,
               this`shownPhoto, this`shows, this`photoRoutine, this`nextId, this`quadActive, this`photoRunsStarted
      ensures Valid() && photoRunsStarted == old(photoRunsStarted) + 1 && photosTaken == old(photosTaken) + 1
      ensures lastPhoto.Some? && lastPhoto.value.width == width && lastPhoto.value.height == height
    {
      photoRunsStarted := photoRunsStarted + 1;
      TakePhoto(width, height);
    }

    /** `StartCoroutine(FlashOnly())` up to its first `yield`: only a flash light does anything. */
    method StartFlashOnly()
      requires Valid() && Ready()
      modifies this`lightOn, this`flashes
      ensures Valid()
      ensures hasFlashLight ==> lightOn && flashes == old(flashes) + [FlashRun(FlashWait, 0.0, true)]
      ensures !hasFlashLight ==> lightOn == old(lightOn) && flashes == old(flashes)
    {
      if hasFlashLight {
        lightOn := true;
        AwaitingAppend(flashes, [FlashRun(FlashWait, 0.0, true)]);
        flashes := flashes + [FlashRun(FlashWait, 0.0, true)];
      }
    }

    /**
     * `Update` for a frame of length `dt` in which the render texture is
     * `width` by `height`. It returns the routine it started.
     */
    method Update(input: MouseInput, dt: real, width: nat, height: nat) returns (flash: Flash)
      requires Valid() && Ready() && enabled
      modifies this`isHolding, this`holdTimer,
               this`lastPhoto, this`allocations, this`photosTaken, this`cameraTargetSet, this`activeTextureSet,
               this`shownPhoto, this`shows, this`photoRoutine, this`nextId, this`quadActive,
               this`lightOn, this`flashes, this`photoRunsStarted
      ensures Valid()
      ensures (HoldState(isHolding, holdTimer), flash) == HoldStep(old(HoldState(isHolding, holdTimer)), input, dt, holdTime)
      ensures flashes == old(flashes) + StartedRun(flash, hasFlashLight)
      ensures lightOn == (old(lightOn) || (flash != NoFlash && hasFlashLight))
      ensures flash == FlashAndTakePhoto && !hasFlashLight ==>
        && photosTaken == old(photosTaken) + 1
        && lastPhoto.Some? && lastPhoto.value.width == width && lastPhoto.value.height == height
      ensures !(flash == FlashAndTakePhoto && !hasFlashLight) ==>
        photosTaken == old(photosTaken) && lastPhoto == old(lastPhoto) && shows == old(shows)
      ensures flash == FlashAndTakePhoto ==> photoRunsStarted == old(photoRunsStarted) + 1
      ensures flash != FlashAndTakePhoto ==> photoRunsStarted == old(photoRunsStarted)
    {
      var photo := PressAndHold(input, dt, width, height);
      var flashOnly := Release(input);
      flash := if photo then FlashAndTakePhoto else if flashOnly then FlashOnly else NoFlash;
    }

    /** The release check of `Update`: an early release starts `FlashOnly`, and any release ends the hold. */
    method Release(input: MouseInput) returns (flashOnly: bool)
      requires Valid() && Ready()
      modifies this`isHolding, this`lightOn, this`flashes
      ensures Valid() && holdTimer == old(holdTimer)
      ensures flashOnly == (input.up && old(isHolding) && holdTimer < holdTime)
      ensures isHolding == (old(isHolding) && !input.up)
      ensures !(flashOnly && hasFlashLight) ==> flashes == old(flashes) && lightOn == old(lightOn)
      ensures flashOnly && hasFlashLight ==> lightOn && flashes == old(flashes) + [FlashRun(FlashWait, 0.0, true)]
    {
      flashOnly := false;
      if input.up {
        if isHolding && holdTimer < holdTime {
          StartFlashOnly();
          flashOnly := true;
        }
        isHolding := false;
      }
    }

    /** The press and hold checks of `Update`, which start `FlashAndTakePhoto` once the hold is long enough. */
    method PressAndHold(input: MouseInput, dt: real, width: nat, height: nat) returns (photo: bool)
      requires Valid() && Ready() && enabled
      modifies this`isHolding, this`holdTimer,
               this`lastPhoto, this`allocations, this`photosTaken, this`cameraTargetSet, this`activeTextureSet,
               this`shownPhoto, this`shows, this`photoRoutine, this`nextId, this`quadActive,
               this`lightOn, this`flashes, this`photoRunsStarted
      ensures Valid()
      ensures var pressed := if input.down then HoldState(true, 0.0) else old(HoldState(isHolding, holdTimer));
        && photo == (pressed.isHolding && input.held && pressed.holdTimer + dt >= holdTime)
        && holdTimer == pressed.holdTimer + (if pressed.isHolding && input.held then dt else 0.0)
        && isHolding == (pressed.isHolding && !photo)
      ensures !photo ==>
        && flashes == old(flashes) && photosTaken == old(photosTaken) && lightOn == old(lightOn)
        && photoRunsStarted == old(photoRunsStarted) && lastPhoto == old(lastPhoto) && shows == old(shows)
      ensures photo ==> photoRunsStarted == old(photoRunsStarted) + 1
      ensures photo && hasFlashLight ==>
        && lightOn && flashes == old(flashes) + [FlashRun(AwaitFrame, 0.0, true)]
        && photosTaken == old(photosTaken) && lastPhoto == old(lastPhoto) && shows == old(shows)
      ensures photo && !hasFlashLight ==>
        && flashes == old(flashes) && lightOn == old(lightOn) && photosTaken == old(photosTaken) + 1
        && lastPhoto.Some? && lastPhoto.value.width == width && lastPhoto.value.height == height
    {
      photo := false;
      if input.down {
        isHolding := true;
        holdTimer := 0.0;
      }
      if isHolding && input.held {
        holdTimer := holdTimer + dt;
        if holdTimer >= holdTime {
          StartFlashAndTakePhoto(width, height);
          photo := true;
          isHolding := false;
        }
      }
    }

    /**
     * The flash routines resume, in the order they started: a wait that
     * has seen `flashDuration` switches the light off and ends, and a
     * `FlashAndTakePhoto` past its frame wait takes its photo.
     */
    method ResumeFlashes(dt: real, width: nat, height: nat)
      requires Valid()
      modifies this`lastPhoto, this`allocations, this`photosTaken, this`cameraTargetSet, this`activeTextureSet,
               this`shownPhoto, this`shows, this`photoRoutine, this`nextId, this`quadActive,
               this`lightOn, this`flashes
      ensures Valid()
      ensures flashes == Survivors(old(flashes), dt, flashDuration)
      ensures photosTaken == old(photosTaken) + CaptureCount(old(flashes))
      ensures SomeEnds(old(flashes), dt, flashDuration) ==> !lightOn
      ensures !SomeEnds(old(flashes), dt, flashDuration) ==> lightOn == old(lightOn)
      ensures CaptureCount(old(flashes)) > 0 ==> lastPhoto.Some? && lastPhoto.value.width == width && lastPhoto.value.height == height
      ensures CaptureCount(old(flashes)) == 0 ==> lastPhoto == old(lastPhoto) && shows == old(shows)
    {
      var runs := flashes;
      var kept := ResumeEach(runs, dt, width, height);
      AwaitingAfterResume(runs, dt, flashDuration);
      if lightOn {
        SurvivorsKeepAll(runs, dt, flashDuration);
      }
      flashes := kept;
    }

    /** The loop over the suspended flash routines; `flashes` itself is replaced by the caller. */
    method ResumeEach(runs: seq<FlashRun>, dt: real, width: nat, height: nat) returns (kept: seq<FlashRun>)
      requires DisplayValid() && (Ready() || runs == [])
      modifies this`lastPhoto, this`allocations, this`photosTaken, this`cameraTargetSet, this`activeTextureSet,
               this`shownPhoto, this`shows, this`photoRoutine, this`nextId, this`quadActive, this`lightOn
      ensures DisplayValid()
      ensures kept == Survivors(runs, dt, flashDuration)
      ensures photosTaken == old(photosTaken) + CaptureCount(runs)
      ensures SomeEnds(runs, dt, flashDuration) ==> !lightOn
      ensures !SomeEnds(runs, dt, flashDuration) ==> lightOn == old(lightOn)
      ensures CaptureCount(runs) > 0 ==> lastPhoto.Some? && lastPhoto.value.width == width && lastPhoto.value.height == height
      ensures CaptureCount(runs) == 0 ==> lastPhoto == old(lastPhoto) && shows == old(shows)
    {
      kept := [];
      var i := 0;
      while i < |runs|
        invariant 0 <= i <= |runs|
        invariant kept == Survivors(runs[..i], dt, flashDuration)
        invariant photosTaken == old(photosTaken) + CaptureCount(runs[..i])
        invariant SomeEnds(runs[..i], dt, flashDuration) ==> !lightOn
        invariant !SomeEnds(runs[..i], dt, flashDuration) ==> lightOn == old(lightOn)
        invariant CaptureCount(runs[..i]) > 0 ==> lastPhoto.Some? && lastPhoto.value.width == width && lastPhoto.value.height == height
        invariant CaptureCount(runs[..i]) == 0 ==> lastPhoto == old(lastPhoto) && shows == old(shows)
        invariant DisplayValid()
      {
        assert runs[..i + 1][..i] == runs[..i];
        var next := ResumeOne(runs[i], dt, width, height);
        if next.Some? {
          kept := kept + [next.value];
        }
        assert SomeEnds(runs[..i + 1], dt, flashDuration) <==>
          SomeEnds(runs[..i], dt, flashDuration) || next.None?;
        i := i + 1;
      }
      assert runs[..i] == runs;
    }

    /** The engine resumes one flash routine. */
    method ResumeOne(r: FlashRun, dt: real, width: nat, height: nat) returns (next: Option<FlashRun>)
      requires DisplayValid() && (Ready() || !CapturesNow(r))
      modifies this`lastPhoto, this`allocations, this`photosTaken, this`cameraTargetSet, this`activeTextureSet,
               this`shownPhoto, this`shows, this`photoRoutine, this`nextId, this`quadActive, this`lightOn
      ensures DisplayValid() && next == Resumed(r, dt, flashDuration)
      ensures next.None? ==> !lightOn
      ensures next.Some? ==> lightOn == old(lightOn)
      ensures CapturesNow(r) ==>
        && photosTaken == old(photosTaken) + 1
        && lastPhoto.Some? && lastPhoto.value.width == width && lastPhoto.value.height == height
      ensures !CapturesNow(r) ==> photosTaken == old(photosTaken) && lastPhoto == old(lastPhoto) && shows == old(shows)
    {
      if r.newThisFrame {
        return Some(r.(newThisFrame := false));
      }
      match r.stage {
        case AwaitFrame =>
          TakePhoto(width, height);
          next := Some(FlashRun(PhotoWait, 0.0, false));
        case FlashWait =>
          next := AfterWait(r, dt);
        case PhotoWait =>
          next := AfterWait(r, dt);
      }
    }

    /** `WaitForSeconds(flashDuration)` is polled; once over, `flashLight.enabled = false` and the routine ends. */
    method AfterWait(r: FlashRun, dt: real) returns (next: Option<FlashRun>)
      requires !r.newThisFrame && r.stage != AwaitFrame
      modifies this`lightOn
      ensures next == Resumed(r, dt, flashDuration)
      ensures next.None? ==> !lightOn
      ensures next.Some? ==> lightOn == old(lightOn)
    {
      var elapsed := r.elapsed + dt;
      if elapsed >= flashDuration {
        lightOn := false;
        return None;
      }
      return Some(r.(elapsed := elapsed));
    }

    /**
     * The display routine resumes: once its wait has seen `photoDuration`
     * the quad is hidden and the routine ends. `photoRoutine` keeps its
     * handle.
     */
    method ResumeShows(dt: real)
      requires Valid()
      modifies this`shows, this`quadActive
      ensures Valid() && photoRoutine == old(photoRoutine)
      ensures old(shows) == [] ==> shows == [] && quadActive == old(quadActive)
      ensures old(shows) != [] ==>
        var next := ShowResumed(old(shows)[0], dt, photoDuration);
        && (next.None? ==> shows == [] && !quadActive)
        && (next.Some? ==> shows == [next.value] && quadActive == old(quadActive))
    {
      if shows != [] {
        var r := shows[0];
        if r.newThisFrame {
          shows := [r.(newThisFrame := false)];
        } else if r.elapsed + dt >= photoDuration {
          quadActive := false;
          shows := [];
        } else {
          shows := [r.(elapsed := r.elapsed + dt)];
        }
      }
    }

    /** The engine resumes the suspended routines after `Update`: the flash routines, then the display. */
    method ResumeRoutines(dt: real, width: nat, height: nat)
      requires Valid()
      modifies this`lastPhoto, this`allocations, this`photosTaken, this`cameraTargetSet, this`activeTextureSet,
               this`shownPhoto, this`shows, this`photoRoutine, this`nextId, this`quadActive,
               this`lightOn, this`flashes
      ensures Valid()
      ensures flashes == Survivors(old(flashes), dt, flashDuration)
      ensures photosTaken == old(photosTaken) + CaptureCount(old(flashes))
      ensures SomeEnds(old(flashes), dt, flashDuration) ==> !lightOn
      ensures !SomeEnds(old(flashes), dt, flashDuration) ==> lightOn == old(lightOn)
    {
      ResumeFlashes(dt, width, height);
      ResumeShows(dt);
    }

    /** One frame: `Update`, when the component is enabled, then the routines. */
    method Frame(input: MouseInput, dt: real, width: nat, height: nat) returns (flash: Flash)
      requires Valid() && started
      modifies this`isHolding, this`holdTimer,
               this`lastPhoto, this`allocations, this`photosTaken, this`cameraTargetSet, this`activeTextureSet,
               this`shownPhoto, this`shows, this`photoRoutine, this`nextId, this`quadActive,
               this`lightOn, this`flashes, this`photoRunsStarted
      ensures Valid()
      ensures enabled ==> (HoldState(isHolding, holdTimer), flash) == HoldStep(old(HoldState(isHolding, holdTimer)), input, dt, holdTime)
      ensures !enabled ==> flash == NoFlash && isHolding == old(isHolding) && holdTimer == old(holdTimer)
      ensures flashes == Survivors(old(flashes) + StartedRun(flash, hasFlashLight), dt, flashDuration)
      ensures photosTaken == old(photosTaken) + CaptureCount(old(flashes))
                             + (if flash == FlashAndTakePhoto && !hasFlashLight then 1 else 0)
      ensures photoRunsStarted == old(photoRunsStarted) + (if flash == FlashAndTakePhoto then 1 else 0)
      ensures SomeEnds(old(flashes), dt, flashDuration) ==> !lightOn
      ensures !SomeEnds(old(flashes), dt, flashDuration) ==>
        lightOn == (old(lightOn) || (flash != NoFlash && hasFlashLight))
    {
      flash := NoFlash;
      if enabled {
        flash := Update(input, dt, width, height);
      }
      assert flashes == old(flashes) + StartedRun(flash, hasFlashLight);
      StartedRunWaits(old(flashes), flash, hasFlashLight, dt, flashDuration);
      ResumeRoutines(dt, width, height);
    }
  }
}
