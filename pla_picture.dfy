/**
 * `PlaPicture`: the camera-capture controller. Six input callbacks set and
 * clear the hold and action flags and start `ReadActions`, which picks one
 * `HandleActions(photo, flash)` call; that routine lights the flash for a
 * number of frames and captures at the middle one.
 *
 * A coroutine is a value stored on the object: `readLive` and `handleRun`
 * are the routines suspended at a `yield return null`, and `Tick` is the
 * engine resuming them on the next frame. `StartCoroutine` runs a routine's
 * body up to its first `yield` before it returns, so a routine that never
 * yields is over before `??=` stores its handle; whether that handle is
 * null is the engine's choice, `finishedHandleNonNull`.
 */
module PlaPictures {
  import opened Common
  import opened Retry
  import opened Screenshots
  import opened CaptureLogic

  /** `PlaPicture.MaxTries`. */
  const MaxTries: nat := 20

  /** `HandleActions` suspended after iteration `i` of its flash loop, with its locals. */
  datatype HandleRun = HandleRun(id: nat, photo: bool, frames: int, midFrame: int, i: int)

  /**
   * One capture: the culling mask it was rendered with, the `DateTime.Now`
   * its file name is made from, and whether it was written to disk.
   */
  datatype Shot = Shot(renderMask: bv32, takenAt: DateTime, saved: bool)

  /** The file a capture was written to, if any. */
  function ShotFile(shot: Shot): Option<string>
    requires ValidTime(shot.takenAt)
  {
    if shot.saved then Some(SavePath(ScreenshotName(shot.takenAt))) else None
  }

  /**
   * Two saved captures go to the same file, the second overwriting the
   * first, exactly when they were taken in the same second.
   */
  lemma ShotFileCollision(a: Shot, b: Shot)
    requires a.saved && b.saved && ValidTime(a.takenAt) && ValidTime(b.takenAt)
    ensures ShotFile(a) == ShotFile(b) <==> a.takenAt == b.takenAt
  {
    ScreenshotNameInjective(a.takenAt, b.takenAt);
    var na, nb := ScreenshotName(a.takenAt), ScreenshotName(b.takenAt);
    if SavePath(na) == SavePath(nb) {
      assert na == SavePath(na)[|FolderPath|..];
    }
  }

  /**
   * The routine bookkeeping between two calls: a suspended routine's handle
   * is stored, handles name routines already started, the light is on
   * exactly while a flash run is suspended, and a stored handle with no run
   * behind it can only come from `StartCoroutine` returning one for a
   * routine that had already ended.
   */
  ghost predicate RoutinesOk(readLive: Option<nat>, readActions: Handle, handleActions: Handle,
                             handleRun: Option<HandleRun>, nextId: nat, lightActive: bool, finishedNonNull: bool)
  {
    && (readLive.Some? ==> readActions == Routine(readLive.value))
    && (readActions.Routine? ==> readActions.id < nextId)
    && (handleActions.Routine? ==> handleActions.id < nextId)
    && (handleRun.Some? ==> handleActions == Routine(handleRun.value.id))
    && (handleRun.Some? && readActions.Routine? ==> readActions.id != handleRun.value.id)
    && (lightActive <==> handleRun.Some?)
    && (handleActions.Routine? && handleRun.None? ==> finishedNonNull)
  }

  /** A suspended flash run: what it did since `runStart` is the light and its first `run.i + 1` iterations. */
  ghost predicate RunOk(effects: seq<Effect>, runStart: nat, run: HandleRun)
  {
    && 0 <= run.i < run.frames
    && runStart <= |effects|
    && effects[runStart..] == [LightOn] + Iterations(run.photo, run.midFrame, run.i + 1)
  }

  /** A capture (or none) followed by the frame wait is one loop iteration. */
  lemma IterationSnoc(e0: seq<Effect>, e1: seq<Effect>, photo: bool, midFrame: int, j: int)
    requires e1 == (if photo && j == midFrame then e0 + [Capture] else e0)
    ensures e1 + [NextFrame] == e0 + IterationEffects(photo, midFrame, j)
  {
  }

  lemma RunBegin(effects: seq<Effect>, photo: bool, frames: int, mid: int, id: nat)
    requires frames >= 1
    ensures RunOk(effects + [LightOn] + IterationEffects(photo, mid, 0), |effects|, HandleRun(id, photo, frames, mid, 0))
  {
    assert Iterations(photo, mid, 1) == IterationEffects(photo, mid, 0);
    assert (effects + [LightOn] + IterationEffects(photo, mid, 0))[|effects|..]
      == [LightOn] + IterationEffects(photo, mid, 0);
  }

  lemma RunNext(effects: seq<Effect>, runStart: nat, run: HandleRun)
    requires RunOk(effects, runStart, run) && run.i + 1 < run.frames
    ensures RunOk(effects + IterationEffects(run.photo, run.midFrame, run.i + 1), runStart, run.(i := run.i + 1))
  {
    var x := IterationEffects(run.photo, run.midFrame, run.i + 1);
    assert (effects + x)[runStart..] == effects[runStart..] + x;
  }

  /** After its last iteration a run has done exactly its `Trace`. */
  lemma RunEnd(effects: seq<Effect>, runStart: nat, run: HandleRun)
    requires RunOk(effects, runStart, run) && run.i + 1 >= run.frames
    ensures (effects + [LightOff])[runStart..] == FlashTrace(run.photo, run.midFrame, run.frames)
  {
    assert (effects + [LightOff])[runStart..] == effects[runStart..] + [LightOff];
  }

  class PlaPicture {
    const saveToFolder: bool
    const framesToValidate: int
    /** `_layer`: what `LayerMask.NameToLayer("FirstPerson")` returned, -1 when there is no such layer. */
    const layer: int
    /** `pictureMaterial` is set. */
    const hasPictureMaterial: bool
    /** `StartCoroutine` returns a non-null handle for a routine that ended before its first `yield`. */
    const finishedHandleNonNull: bool

    /** `_cam.cullingMask`. */
    var cullingMask: bv32
    var isCamHolding: bool
    var isCamActioning: bool
    var readActions: Handle
    var handleActions: Handle
    var getInputActions: Handle
    /** `ReadActions` suspended at its final `yield return null`, by routine number. */
    var readLive: Option<nat>
    var handleRun: Option<HandleRun>
    /** The number the next started routine gets. */
    var nextId: nat
    /** `flashEffectLight` is active. */
    var lightActive: bool
    /** `_cam.targetTexture` and `RenderTexture.active` hold the capture's render texture. */
    var targetSet: bool
    var activeSet: bool
    /** `Assets/Screenshots/` exists. */
    var folderExists: bool
    var shots: seq<Shot>
    /** Which capture `pictureMaterial.mainTexture` shows. */
    var shownShot: Option<nat>
    /** Everything observable this object did, oldest first. */
    var effects: seq<Effect>
    /** Where the effects of the live flash run start in `effects`. */
    ghost var runStart: nat
    var enabled: bool
    var inputFound: bool
    /** The six camera handlers are registered with the input singleton. */
    var subscribed: bool

    /** The handle `??=` stores for a routine that ended before its first `yield`. */
    function FinishedHandle(id: nat): Handle
    {
      if finishedHandleNonNull then Routine(id) else Null
    }

    /** The capture `TakePhoto` makes at time `now`. */
    function ShotAt(now: DateTime): Shot
      requires ValidTime(now) && -1 <= layer < 32
      reads this`cullingMask
    {
      Shot(RenderMask(cullingMask, layer), now, saveToFolder)
    }

    /**
     * The layer is one `TakePhoto` can hide, no render target is left set,
     * and the folder and material reflect the captures so far.
     */
    ghost predicate CameraValid()
      reads this`shots, this`cullingMask, this`targetSet, this`activeSet, this`folderExists, this`shownShot
    {
      && -1 <= layer < 32
      && !targetSet && !activeSet
      && (saveToFolder && |shots| > 0 ==> folderExists)
      && (hasPictureMaterial && |shots| > 0 ==> shownShot == Some(|shots| - 1))
      && (!hasPictureMaterial ==> shownShot.None?)
    }

    ghost predicate RoutinesValid()
      reads this`readLive, this`readActions, this`handleActions, this`handleRun, this`nextId, this`lightActive
    {
      RoutinesOk(readLive, readActions, handleActions, handleRun, nextId, lightActive, finishedHandleNonNull)
    }

    ghost predicate RunValid()
      reads this`effects, this`runStart, this`handleRun
    {
      handleRun.Some? ==> RunOk(effects, runStart, handleRun.value)
    }

    ghost predicate Valid()
      reads this
    {
      CameraValid() && RoutinesValid() && RunValid()
    }

    /** `_handleActionsCoroutine` holds the handle of a run that is over: no `HandleActions` can start again. */
    predicate StaleHandle()
      reads this`handleActions, this`handleRun
    {
      handleActions.Routine? && handleRun.None?
    }

    /**
     * The field initialisers and `Awake`: the flash light is switched off.
     * Starting `GetInputActions` is `StartGetInputActions` below.
     */
    constructor (saveToFolder: bool, framesToValidate: int, layer: int, hasPictureMaterial: bool,
                 finishedHandleNonNull: bool, cullingMask: bv32)
      requires -1 <= layer < 32
      ensures Valid()
      ensures this.saveToFolder == saveToFolder && this.framesToValidate == framesToValidate
      ensures this.layer == layer && this.hasPictureMaterial == hasPictureMaterial
      ensures this.finishedHandleNonNull == finishedHandleNonNull && this.cullingMask == cullingMask
      ensures !isCamHolding && !isCamActioning && readActions == Null && handleActions == Null
      ensures readLive.None? && handleRun.None? && !lightActive && shots == [] && effects == []
      ensures enabled && !inputFound && !subscribed
    {
      this.saveToFolder := saveToFolder;
      this.framesToValidate := framesToValidate;
      this.layer := layer;
      this.hasPictureMaterial := hasPictureMaterial;
      this.finishedHandleNonNull := finishedHandleNonNull;
      this.cullingMask := cullingMask;
      isCamHolding, isCamActioning := false, false;
      readActions, handleActions, getInputActions := Null, Null, Null;
      readLive, handleRun := None, None;
      nextId := 0;
      lightActive := false;
      targetSet, activeSet := false, false;
      folderExists := false;
      shots, shownShot, effects := [], None, [];
      runStart := 0;
      enabled, inputFound, subscribed := true, false, false;
    }

    /** One whole run of `GetInputActions`; `polls[k]` is whether `FerInputActions.Instance` is live at poll `k`. */
    method GetInputActions(polls: seq<bool>)
      requires |polls| > MaxTries
      modifies this`inputFound, this`subscribed, this`enabled, this`getInputActions
      ensures inputFound <==> FirstWithin(polls, MaxTries).Some?
      ensures subscribed == (inputFound || old(subscribed))
      ensures !inputFound ==> !enabled && getInputActions == old(getInputActions)
      ensures inputFound ==> enabled == old(enabled) && getInputActions == Null
    {
      var found, _ := Poll(polls, MaxTries);
      inputFound := found;
      if !inputFound {
        enabled := false;
        return;
      }
      SubscribeToActions();
      getInputActions := Null;
    }

    /**
     * `Awake`'s `if (!_inputActions) _getInputActionsCoroutine ??= StartCoroutine(GetInputActions())`.
     * The routine ends before its first `yield` exactly when the singleton is
     * live at the first poll; it then clears the field before `??=` stores
     * the handle `StartCoroutine` returned. Otherwise the handle of the
     * suspended routine is stored first, and the routine's end clears it on
     * success and keeps it on failure.
     */
    method StartGetInputActions(polls: seq<bool>)
      requires Valid() && |polls| > MaxTries
      modifies this`inputFound, this`subscribed, this`enabled, this`getInputActions, this`nextId
      ensures Valid()
      ensures !(!old(inputFound) && old(getInputActions) == Null) ==>
        && inputFound == old(inputFound) && subscribed == old(subscribed)
        && enabled == old(enabled) && getInputActions == old(getInputActions) && nextId == old(nextId)
      ensures !old(inputFound) && old(getInputActions) == Null ==>
        && nextId == old(nextId) + 1
        && (inputFound <==> FirstWithin(polls, MaxTries).Some?)
        && subscribed == (inputFound || old(subscribed))
        && (!inputFound ==> !enabled && getInputActions == Routine(old(nextId)))
        && (inputFound ==> enabled == old(enabled))
        && (inputFound && polls[0] ==> getInputActions == FinishedHandle(old(nextId)))
        && (inputFound && !polls[0] ==> getInputActions == Null)
    {
      if !inputFound && getInputActions == Null {
        var id := nextId;
        nextId := nextId + 1;
        if polls[0] {
          GetInputActions(polls);
          getInputActions := FinishedHandle(id);
        } else {
          getInputActions := Routine(id);
          GetInputActions(polls);
        }
      }
    }

    method SubscribeToActions()
      modifies this`subscribed
      ensures subscribed == (inputFound || old(subscribed))
    {
      if !inputFound {
        return;
      }
      subscribed := true;
    }

    /**
     * `TakePhoto`: render with the player's own layer hidden, read the
     * pixels back, restore the camera, then name, save and show the capture.
     */
    method TakePhoto(now: DateTime)
      requires ValidTime(now) && CameraValid()
      modifies this`cullingMask, this`targetSet, this`activeSet, this`folderExists,
               this`shots, this`shownShot, this`effects
      ensures CameraValid() && !targetSet && !activeSet
      ensures cullingMask == old(cullingMask)
      ensures shots == old(shots) + [ShotAt(now)]
      ensures effects == old(effects) + [Capture]
      ensures saveToFolder ==> folderExists
      ensures !saveToFolder ==> folderExists == old(folderExists)
    {
      var ogMask := cullingMask;
      cullingMask := RenderMask(cullingMask, layer);
      targetSet := true;
      var rendered := cullingMask;
      activeSet := true;
      targetSet, activeSet := false, false;
      cullingMask := ogMask;
      var saved := false;
      if saveToFolder {
        if !folderExists {
          folderExists := true;
        }
        saved := true;
      }
      var shot := Shot(rendered, now, saved);
      shots := shots + [shot];
      if hasPictureMaterial {
        shownShot := Some(|shots| - 1);
      }
      effects := effects + [Capture];
    }

    /** What one `StartCoroutine(HandleActions(photo, flash))` did, given the routine number `id` it got. */
    twostate predicate HandleRan(photo: bool, flash: bool, frames: int, now: DateTime, id: nat)
      requires ValidTime(now) && -1 <= layer < 32
      reads this`handleRun, this`handleActions, this`effects, this`shots, this`cullingMask,
            this`folderExists, this`shownShot
    {
      && (shots == old(shots) ==> folderExists == old(folderExists) && shownShot == old(shownShot))
      && (flash && frames >= 1 ==>
            && handleRun == Some(HandleRun(id, photo, frames, MidFrame(frames), 0)) && handleActions == Routine(id)
            && effects == old(effects) + [LightOn] + Iterations(photo, MidFrame(frames), 1)
            && shots == old(shots) + (if photo && MidFrame(frames) == 0 then [ShotAt(now)] else []))
      && (!(flash && frames >= 1) ==>
            && handleRun.None? && handleActions == FinishedHandle(id)
            && effects == old(effects) + Trace(photo, flash, frames)
            && shots == old(shots) + (if photo && !flash then [ShotAt(now)] else []))
    }

    /**
     * `_handleActionsCoroutine ??= StartCoroutine(HandleActions(photo, flash))`
     * when the field is null: the body up to its first `yield return null`,
     * then the assignment of the returned handle. `frames` is what
     * `SecondsToFrames(flashDuration)` returns.
     */
    method StartHandleActions(photo: bool, flash: bool, frames: int, now: DateTime)
      requires Valid() && ValidTime(now) && handleActions == Null
      modifies this`cullingMask, this`targetSet, this`activeSet, this`folderExists,
               this`shots, this`shownShot, this`effects, this`handleActions, this`handleRun,
               this`nextId, this`lightActive, this`runStart
      ensures Valid() && nextId == old(nextId) + 1 && cullingMask == old(cullingMask)
      ensures HandleRan(photo, flash, frames, now, old(nextId))
    {
      var id := nextId;
      nextId := nextId + 1;
      var midFrame := MidFrame(frames);
      if flash && 0 < frames {
        FlashStart(photo, frames, midFrame, now, id);
      } else {
        RunWithoutYield(photo, flash, frames, now);
        FinishHandle(id);
      }
    }

    /**
     * A `HandleActions` run numbered `id` ends before its first `yield`: it
     * clears its field, then `??=` stores the handle `StartCoroutine` returned.
     */
    method FinishHandle(id: nat)
      requires Valid() && handleActions == Null && handleRun.None? && id < nextId
      modifies this`handleActions
      ensures Valid() && handleActions == FinishedHandle(id)
    {
      handleActions := Null;
      handleActions := FinishedHandle(id);
    }

    /**
     * `HandleActions` when it never reaches its `yield`: a flash whose loop
     * runs no iteration, a photo alone, or neither.
     */
    method RunWithoutYield(photo: bool, flash: bool, frames: int, now: DateTime)
      requires CameraValid() && ValidTime(now) && !(flash && 0 < frames) && !lightActive
      modifies this`cullingMask, this`targetSet, this`activeSet, this`folderExists,
               this`shots, this`shownShot, this`effects, this`lightActive
      ensures CameraValid() && cullingMask == old(cullingMask) && !lightActive
      ensures effects == old(effects) + Trace(photo, flash, frames)
      ensures shots == old(shots) + (if photo && !flash then [ShotAt(now)] else [])
      ensures shots == old(shots) ==> folderExists == old(folderExists) && shownShot == old(shownShot)
    {
      if flash {
        lightActive := true;
        effects := effects + [LightOn];
        lightActive := false;
        effects := effects + [LightOff];
      } else if photo {
        TakePhoto(now);
      }
    }

    /**
     * The flash branch of `HandleActions` up to its first `yield return
     * null`: the light goes on and iteration 0 runs; then `??=` stores the
     * handle of the suspended routine.
     */
    method FlashStart(photo: bool, frames: int, midFrame: int, now: DateTime, id: nat)
      requires Valid() && ValidTime(now) && frames >= 1
      requires handleActions == Null && handleRun.None? && id < nextId
      requires readActions.Routine? ==> readActions.id != id
      modifies this`cullingMask, this`targetSet, this`activeSet, this`folderExists,
               this`shots, this`shownShot, this`effects,
               this`handleActions, this`handleRun, this`lightActive, this`runStart
      ensures Valid() && cullingMask == old(cullingMask)
      ensures handleRun == Some(HandleRun(id, photo, frames, midFrame, 0)) && handleActions == Routine(id)
      ensures effects == old(effects) + [LightOn] + IterationEffects(photo, midFrame, 0)
      ensures shots == old(shots) + (if photo && midFrame == 0 then [ShotAt(now)] else [])
      ensures shots == old(shots) ==> folderExists == old(folderExists) && shownShot == old(shownShot)
    {
      lightActive := true;
      effects := effects + [LightOn];
      var i := 0;
      FlashIteration(photo, midFrame, i, now);
      RunBegin(old(effects), photo, frames, midFrame, id);
      handleRun, runStart, handleActions := Some(HandleRun(id, photo, frames, midFrame, i)), |old(effects)|, Routine(id);
    }

    /** The body of the flash loop for iteration `j`: the capture at `midFrame`, then `yield return null`. */
    method FlashIteration(photo: bool, midFrame: int, j: int, now: DateTime)
      requires CameraValid() && ValidTime(now)
      modifies this`cullingMask, this`targetSet, this`activeSet, this`folderExists,
               this`shots, this`shownShot, this`effects
      ensures CameraValid() && cullingMask == old(cullingMask)
      ensures effects == old(effects) + IterationEffects(photo, midFrame, j)
      ensures shots == old(shots) + (if photo && j == midFrame then [ShotAt(now)] else [])
      ensures shots == old(shots) ==> folderExists == old(folderExists) && shownShot == old(shownShot)
    {
      if photo && j == midFrame {
        TakePhoto(now);
      }
      IterationSnoc(old(effects), effects, photo, midFrame, j);
      effects := effects + [NextFrame];
    }

    /**
     * One frame: a suspended `ReadActions` resumes after its `yield` and
     * ends; a suspended `HandleActions` runs its next loop iteration, or
     * switches the light off and clears its handle after the last one.
     */
    method Tick(now: DateTime)
      requires Valid() && ValidTime(now)
      modifies this`cullingMask, this`targetSet, this`activeSet, this`folderExists,
               this`shots, this`shownShot, this`effects,
               this`readLive, this`handleRun, this`lightActive, this`handleActions
      ensures Valid() && cullingMask == old(cullingMask)
      ensures readLive.None? && readActions == old(readActions)
      ensures old(handleRun).None? ==>
        effects == old(effects) && shots == old(shots) && handleRun.None? && handleActions == old(handleActions)
      ensures old(handleRun).Some? && old(handleRun).value.i + 1 < old(handleRun).value.frames ==>
        var run := old(handleRun).value;
        && handleRun == Some(run.(i := run.i + 1)) && handleActions == old(handleActions)
        && effects == old(effects) + IterationEffects(run.photo, run.midFrame, run.i + 1)
        && shots == old(shots) + (if run.photo && run.i + 1 == run.midFrame then [ShotAt(now)] else [])
      ensures old(handleRun).Some? && old(handleRun).value.i + 1 >= old(handleRun).value.frames ==>
        var run := old(handleRun).value;
        && handleRun.None? && handleActions == Null && effects == old(effects) + [LightOff]
        && shots == old(shots)
        && runStart <= |effects| && effects[runStart..] == FlashTrace(run.photo, run.midFrame, run.frames)
      ensures shots == old(shots) ==> folderExists == old(folderExists) && shownShot == old(shownShot)
      ensures old(StaleHandle()) ==> StaleHandle() && effects == old(effects)
    {
      if readLive.Some? {
        readLive := None;
      }
      if handleRun.Some? {
        if handleRun.value.i + 1 < handleRun.value.frames {
          ResumeFlash(now);
        } else {
          EndFlash();
        }
      }
    }

    /** A suspended flash run resumes after its `yield` and runs its next loop iteration. */
    method ResumeFlash(now: DateTime)
      requires Valid() && ValidTime(now)
      requires handleRun.Some? && handleRun.value.i + 1 < handleRun.value.frames
      modifies this`cullingMask, this`targetSet, this`activeSet, this`folderExists,
               this`shots, this`shownShot, this`effects, this`handleRun
      ensures Valid() && cullingMask == old(cullingMask)
      ensures var run := old(handleRun).value;
        && handleRun == Some(run.(i := run.i + 1))
        && effects == old(effects) + IterationEffects(run.photo, run.midFrame, run.i + 1)
        && shots == old(shots) + (if run.photo && run.i + 1 == run.midFrame then [ShotAt(now)] else [])
      ensures shots == old(shots) ==> folderExists == old(folderExists) && shownShot == old(shownShot)
    {
      var run := handleRun.value;
      var i := run.i + 1;
      RunNext(effects, runStart, run);
      FlashIteration(run.photo, run.midFrame, i, now);
      handleRun := Some(run.(i := i));
    }

    /** A suspended flash run resumes after its last `yield`: the light goes off and the handle is cleared. */
    method EndFlash()
      requires Valid()
      requires handleRun.Some? && handleRun.value.i + 1 >= handleRun.value.frames
      modifies this`effects, this`handleRun, this`lightActive, this`handleActions
      ensures Valid() && handleRun.None? && !lightActive && handleActions == Null
      ensures effects == old(effects) + [LightOff]
      ensures var run := old(handleRun).value;
        runStart <= |effects| && effects[runStart..] == FlashTrace(run.photo, run.midFrame, run.frames)
    {
      var run := handleRun.value;
      RunEnd(effects, runStart, run);
      lightActive := false;
      effects := effects + [LightOff];
      handleActions := Null;
      handleRun := None;
    }

    /** What one `StartCoroutine(ReadActions())` did, given the routine number `id` it got. */
    twostate predicate ReadRan(frames: int, now: DateTime, id: nat)
      requires ValidTime(now) && -1 <= layer < 32
      reads this`isCamHolding, this`isCamActioning, this`readLive, this`readActions,
            this`handleRun, this`handleActions, this`effects, this`shots, this`cullingMask,
            this`folderExists, this`shownShot
    {
      var c := Classify(isCamHolding, isCamActioning, framesToValidate);
      && (c.Waiting? ==> readLive == Some(id) && readActions == Routine(id))
      && (!c.Waiting? ==> readLive.None? && readActions == FinishedHandle(id))
      && (c.Dispatch? && old(handleActions) == Null ==> HandleRan(c.photo, c.flash, frames, now, id + 1))
      && (!(c.Dispatch? && old(handleActions) == Null) ==>
            effects == old(effects) && shots == old(shots) && handleRun == old(handleRun)
            && handleActions == old(handleActions)
            && folderExists == old(folderExists) && shownShot == old(shownShot))
    }

    /**
     * `_readActionsCoroutine ??= StartCoroutine(ReadActions())` when the
     * field is null. `ReadActions` never yields before it decides, so it
     * is over, a `HandleActions` run possibly started, before the handle
     * is stored.
     */
    method StartReadActions(frames: int, now: DateTime)
      requires Valid() && ValidTime(now) && readActions == Null
      modifies this`cullingMask, this`targetSet, this`activeSet, this`folderExists,
               this`shots, this`shownShot, this`effects,
               this`handleActions, this`handleRun, this`nextId, this`lightActive, this`runStart,
               this`readActions, this`readLive
      ensures Valid() && ReadRan(frames, now, old(nextId)) && cullingMask == old(cullingMask)
    {
      var outcome := ReadActionsOutcome(isCamHolding, isCamActioning, framesToValidate);
      if outcome.Dispatch? && handleActions == Null {
        ReadDispatches(outcome.photo, outcome.flash, frames, now);
      } else {
        ReadWithoutDispatch(frames, now);
      }
    }

    /**
     * A `ReadActions` run that starts no `HandleActions`: it stops, finds
     * a handle already stored, or waits a frame at its final `yield`.
     */
    method ReadWithoutDispatch(frames: int, now: DateTime)
      requires Valid() && ValidTime(now) && readActions == Null
      requires !(Classify(isCamHolding, isCamActioning, framesToValidate).Dispatch? && handleActions == Null)
      modifies this`nextId, this`readActions, this`readLive
      ensures Valid() && ReadRan(frames, now, old(nextId))
    {
      var id := nextId;
      nextId := nextId + 1;
      if Classify(isCamHolding, isCamActioning, framesToValidate).Waiting? {
        readLive := Some(id);
        readActions := Routine(id);
      } else {
        FinishRead(id);
      }
    }

    /**
     * A `ReadActions` run that dispatches while no `HandleActions` handle is
     * stored: `_handleActionsCoroutine ??= StartCoroutine(HandleActions(photo, flash))`
     * starts a run, then `ReadActions` ends and its own handle is stored.
     * With a handle stored the `??=` does nothing, which `StartReadActions`
     * handles itself.
     */
    method ReadDispatches(photo: bool, flash: bool, frames: int, now: DateTime)
      requires Valid() && ValidTime(now) && readActions == Null
      requires Classify(isCamHolding, isCamActioning, framesToValidate) == Dispatch(photo, flash)
      requires handleActions == Null
      modifies this`cullingMask, this`targetSet, this`activeSet, this`folderExists,
               this`shots, this`shownShot, this`effects,
               this`handleActions, this`handleRun, this`nextId, this`lightActive, this`runStart,
               this`readActions
      ensures Valid() && ReadRan(frames, now, old(nextId)) && cullingMask == old(cullingMask)
    {
      var id := nextId;
      nextId := nextId + 1;
      StartHandleActions(photo, flash, frames, now);
      FinishRead(id);
    }

    /**
     * A `ReadActions` run numbered `id` ends before its first `yield`: it
     * clears its field, then `??=` stores the handle `StartCoroutine` returned.
     */
    method FinishRead(id: nat)
      requires Valid() && readActions == Null && id < nextId
      requires handleRun.Some? ==> handleRun.value.id != id
      modifies this`readActions
      ensures Valid() && readActions == FinishedHandle(id)
    {
      readActions := Null;
      readActions := FinishedHandle(id);
    }

    /** Nothing but the flags changed: no `ReadActions` was started. */
    twostate predicate ReadUntouched()
      reads this`readActions, this`readLive, this`effects, this`shots, this`handleRun,
            this`handleActions, this`nextId, this`lightActive, this`folderExists, this`shownShot
    {
      && readActions == old(readActions) && readLive == old(readLive) && effects == old(effects)
      && shots == old(shots) && handleRun == old(handleRun) && handleActions == old(handleActions)
      && nextId == old(nextId) && lightActive == old(lightActive)
      && folderExists == old(folderExists) && shownShot == old(shownShot)
    }

    /** `OnCamHold`, for the started and the performed event. */
    method OnCamHold(frames: int, now: DateTime)
      requires Valid() && ValidTime(now)
      modifies this`isCamHolding, this`cullingMask, this`targetSet, this`activeSet, this`folderExists,
               this`shots, this`shownShot, this`effects,
               this`handleActions, this`handleRun, this`nextId, this`lightActive, this`runStart,
               this`readActions, this`readLive
      ensures Valid() && isCamHolding && isCamActioning == old(isCamActioning)
      ensures old(readActions) == Null ==> ReadRan(frames, now, old(nextId))
      ensures cullingMask == old(cullingMask)
      ensures old(readActions) != Null ==> ReadUntouched()
      ensures old(StaleHandle()) ==> StaleHandle() && effects == old(effects)
    {
      isCamHolding := true;
      if isCamHolding {
        if readActions == Null {
          StartReadActions(frames, now);
        }
      }
    }

    /** `OnCamAction`, for the started and the performed event. */
    method OnCamAction(frames: int, now: DateTime)
      requires Valid() && ValidTime(now)
      modifies this`isCamActioning, this`cullingMask, this`targetSet, this`activeSet, this`folderExists,
               this`shots, this`shownShot, this`effects,
               this`handleActions, this`handleRun, this`nextId, this`lightActive, this`runStart,
               this`readActions, this`readLive
      ensures Valid() && isCamActioning && isCamHolding == old(isCamHolding)
      ensures old(readActions) == Null ==> ReadRan(frames, now, old(nextId))
      ensures cullingMask == old(cullingMask)
      ensures old(readActions) != Null ==> ReadUntouched()
      ensures old(StaleHandle()) ==> StaleHandle() && effects == old(effects)
    {
      isCamActioning := true;
      if isCamActioning {
        if readActions == Null {
          StartReadActions(frames, now);
        }
      }
    }

    /** Stops the routine `readActions` names and clears the field. */
    method StopReadActions()
      requires Valid()
      modifies this`readLive, this`readActions
      ensures Valid() && readActions == Null && readLive.None?
    {
      if readActions != Null {
        if readLive.Some? && readActions == Routine(readLive.value) {
          readLive := None;
        }
      }
      readActions := Null;
    }

    method OnCamHoldCanceled()
      requires Valid()
      modifies this`isCamHolding, this`readLive, this`readActions
      ensures Valid() && !isCamHolding && readActions == Null && readLive.None?
    {
      isCamHolding := false;
      StopReadActions();
    }

    method OnCamActionCanceled()
      requires Valid()
      modifies this`isCamActioning, this`readLive, this`readActions
      ensures Valid() && !isCamActioning && readActions == Null && readLive.None?
    {
      isCamActioning := false;
      StopReadActions();
    }
  }
}
