/**
 * `PlaController`: finding the GameManager and the input singleton with
 * bounded retries, the mouse-sensitivity fall-back, and the move/look
 * handlers that store the incoming vectors.
 */
module PlaControl {
  import opened Common
  import opened Retry

  const MaxTries: nat := 50
  const FallbackSensitivity: real := 5.0

  /** Which sensitivity readings are usable (positive). */
  function Positive(readings: seq<real>): (r: seq<bool>)
    ensures |r| == |readings|
    ensures forall i :: 0 <= i < |readings| ==> (r[i] <==> readings[i] > 0.0)
  {
    seq(|readings|, i requires 0 <= i < |readings| => readings[i] > 0.0)
  }

  /**
   * The sensitivity `GetManagerStuff` settles on: the first positive reading
   * among the first and `MaxTries` more, else the fall-back.
   */
  function SettledSensitivity(readings: seq<real>): (r: real)
    requires |readings| > MaxTries
    ensures r > 0.0
    ensures r == FallbackSensitivity || exists k :: 0 <= k <= MaxTries && r == readings[k]
  {
    match FirstWithin(Positive(readings), MaxTries)
    case Some(k) => readings[k]
    case None => FallbackSensitivity
  }

  class PlaController {
    /** `StartCoroutine` returns a non-null handle for a routine that ended before its first `yield`. */
    const finishedHandleNonNull: bool
    var enabled: bool
    /** `_gameManager` is a live reference. */
    var managerFound: bool
    var mouseSensitivity: real
    var managerRoutine: Handle
    /** `_inputActions` is a live reference. */
    var inputFound: bool
    /** The four move/look handlers are registered with the input singleton. */
    var subscribed: bool
    var inputRoutine: Handle
    var moveVec: Vec2
    var lookVec: Vec2
    /** The number the next started routine gets. */
    var nextId: nat

    /** Field initialisers: nothing found yet, sensitivity 0, no handles, vectors zero. */
    constructor (finishedHandleNonNull: bool)
      ensures this.finishedHandleNonNull == finishedHandleNonNull
      ensures enabled && !managerFound && !inputFound && !subscribed
      ensures mouseSensitivity == 0.0 && moveVec == Zero2 && lookVec == Zero2
      ensures managerRoutine == Null && inputRoutine == Null
    {
      this.finishedHandleNonNull := finishedHandleNonNull;
      enabled := true;
      managerFound := false;
      mouseSensitivity := 0.0;
      managerRoutine := Null;
      inputFound := false;
      subscribed := false;
      inputRoutine := Null;
      moveVec := Zero2;
      lookVec := Zero2;
      nextId := 0;
    }

    /** The handle `??=` stores for a routine that ended before its first `yield`. */
    function FinishedHandle(id: nat): Handle
    {
      if finishedHandleNonNull then Routine(id) else Null
    }

    /**
     * `Awake`'s `_getManagerStuffCoroutine ??= StartCoroutine(GetManagerStuff())`,
     * under its guard. The routine ends before its first `yield` exactly when
     * the manager is live at the first poll and its first reading is
     * positive; it then clears the field before `??=` stores the handle
     * `StartCoroutine` returned. Otherwise the handle of the suspended routine
     * is stored first, and the routine's end clears it on success and keeps
     * it on failure.
     */
    method StartGetManagerStuff(managerPolls: seq<bool>, readings: seq<real>)
      requires |managerPolls| > MaxTries && |readings| > MaxTries
      modifies this`managerFound, this`mouseSensitivity, this`enabled, this`managerRoutine, this`nextId
      ensures !((!old(managerFound) || old(mouseSensitivity) <= 0.0) && old(managerRoutine) == Null) ==>
        && managerFound == old(managerFound) && mouseSensitivity == old(mouseSensitivity)
        && enabled == old(enabled) && managerRoutine == old(managerRoutine) && nextId == old(nextId)
      ensures (!old(managerFound) || old(mouseSensitivity) <= 0.0) && old(managerRoutine) == Null ==>
        && nextId == old(nextId) + 1
        && (managerFound <==> FirstWithin(managerPolls, MaxTries).Some?)
        && (!managerFound ==> !enabled && managerRoutine == Routine(old(nextId)) && mouseSensitivity == old(mouseSensitivity))
        && (managerFound ==> enabled == old(enabled) && mouseSensitivity == SettledSensitivity(readings))
        && (managerFound && managerPolls[0] && readings[0] > 0.0 ==> managerRoutine == FinishedHandle(old(nextId)))
        && (managerFound && !(managerPolls[0] && readings[0] > 0.0) ==> managerRoutine == Null)
    {
      if (!managerFound || mouseSensitivity <= 0.0) && managerRoutine == Null {
        var id := nextId;
        nextId := nextId + 1;
        if managerPolls[0] && readings[0] > 0.0 {
          GetManagerStuff(managerPolls, readings);
          managerRoutine := FinishedHandle(id);
        } else {
          managerRoutine := Routine(id);
          GetManagerStuff(managerPolls, readings);
        }
      }
    }

    /**
     * `Awake`'s `_getInputActionsCoroutine ??= StartCoroutine(GetInputActions())`,
     * under its guard: as `StartGetManagerStuff`, the routine ends before its
     * first `yield` exactly when the singleton is live at the first poll.
     */
    method StartGetInputActions(inputPolls: seq<bool>)
      requires |inputPolls| > MaxTries
      modifies this`inputFound, this`subscribed, this`enabled, this`inputRoutine, this`nextId
      ensures !(!old(inputFound) && old(inputRoutine) == Null) ==>
        && inputFound == old(inputFound) && subscribed == old(subscribed)
        && enabled == old(enabled) && inputRoutine == old(inputRoutine) && nextId == old(nextId)
      ensures !old(inputFound) && old(inputRoutine) == Null ==>
        && nextId == old(nextId) + 1
        && (inputFound <==> FirstWithin(inputPolls, MaxTries).Some?)
        && subscribed == (inputFound || old(subscribed))
        && (!inputFound ==> !enabled && inputRoutine == Routine(old(nextId)))
        && (inputFound ==> enabled == old(enabled))
        && (inputFound && inputPolls[0] ==> inputRoutine == FinishedHandle(old(nextId)))
        && (inputFound && !inputPolls[0] ==> inputRoutine == Null)
    {
      if !inputFound && inputRoutine == Null {
        var id := nextId;
        nextId := nextId + 1;
        if inputPolls[0] {
          GetInputActions(inputPolls);
          inputRoutine := FinishedHandle(id);
        } else {
          inputRoutine := Routine(id);
          GetInputActions(inputPolls);
        }
      }
    }

    /**
     * One whole run of the `GetManagerStuff` routine. `managerPolls[k]` is
     * whether `GameManager.Instance` is live at poll `k`; `readings[k]` its
     * `MouseSensitivity` at the `k`-th reading.
     */
    method GetManagerStuff(managerPolls: seq<bool>, readings: seq<real>)
      requires |managerPolls| > MaxTries && |readings| > MaxTries
      modifies this`managerFound, this`mouseSensitivity, this`enabled, this`managerRoutine
      ensures managerFound <==> FirstWithin(managerPolls, MaxTries).Some?
      ensures !managerFound ==> !enabled && managerRoutine == old(managerRoutine)
      ensures !managerFound ==> mouseSensitivity == old(mouseSensitivity)
      ensures managerFound ==> enabled == old(enabled) && managerRoutine == Null
      ensures managerFound ==> mouseSensitivity == SettledSensitivity(readings) && mouseSensitivity > 0.0
      ensures inputFound == old(inputFound) && subscribed == old(subscribed) && inputRoutine == old(inputRoutine)
      ensures moveVec == old(moveVec) && lookVec == old(lookVec)
    {
      var found, _ := Poll(managerPolls, MaxTries);
      managerFound := found;
      if !managerFound {
        enabled := false;
        return;
      }
      var positive, tries := Poll(Positive(readings), MaxTries);
      mouseSensitivity := readings[tries];
      if mouseSensitivity <= 0.0 {
        mouseSensitivity := FallbackSensitivity;
      }
      managerRoutine := Null;
    }

    /** One whole run of `GetInputActions`; `polls[k]` is whether `FerInputActions.Instance` is live at poll `k`. */
    method GetInputActions(polls: seq<bool>)
      requires |polls| > MaxTries
      modifies this`inputFound, this`subscribed, this`enabled, this`inputRoutine
      ensures inputFound <==> FirstWithin(polls, MaxTries).Some?
      ensures subscribed == (inputFound || old(subscribed))
      ensures !inputFound ==> !enabled && inputRoutine == old(inputRoutine)
      ensures inputFound ==> enabled == old(enabled) && inputRoutine == Null
      ensures managerFound == old(managerFound) && mouseSensitivity == old(mouseSensitivity)
      ensures managerRoutine == old(managerRoutine) && moveVec == old(moveVec) && lookVec == old(lookVec)
    {
      var found, _ := Poll(polls, MaxTries);
      inputFound := found;
      if !inputFound {
        enabled := false;
        return;
      }
      SubscribeToActions();
      inputRoutine := Null;
    }

    method SubscribeToActions()
      modifies this`subscribed
      ensures subscribed == (inputFound || old(subscribed))
    {
      if !inputFound {
        return;
      }
      subscribed := true;
    }

    method OnMovePerformed(v: Vec2)
      modifies this`moveVec
      ensures moveVec == v
    {
      moveVec := v;
    }

    method OnMoveCanceled(v: Vec2)
      modifies this`moveVec
      ensures moveVec == Zero2
    {
      moveVec := Zero2;
    }

    method OnLookPerformed(v: Vec2)
      modifies this`lookVec
      ensures lookVec == v
    {
      lookVec := v;
    }

    method OnLookCanceled(v: Vec2)
      modifies this`lookVec
      ensures lookVec == Zero2
    {
      lookVec := Zero2;
    }
  }
}
