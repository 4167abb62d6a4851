/**
 * The decisions `PlaPicture` makes, as functions: how `ReadActions` maps the
 * two input flags to a `HandleActions` call, the effects one `HandleActions`
 * run has (light, captures, frame waits), and the culling mask `TakePhoto`
 * renders with.
 */
module CaptureLogic {

  // ---------------------------------------------------------------- ReadActions

  /**
   * How a `ReadActions` run ends: it stops without acting, calls
   * `HandleActions(photo, flash)`, or reaches its final `yield return null`.
   */
  datatype ReadOutcome = Stopped | Dispatch(photo: bool, flash: bool) | Waiting

  /**
   * The outcome of `ReadActions` for the flags it sees. The flags cannot
   * change inside its loop (it never yields), so every iteration sees the
   * same pair; and with `framesToValidate <= 0` the loop body never runs,
   * so both flags set fall through to the hold branch.
   */
  function Classify(holding: bool, actioning: bool, framesToValidate: int): (r: ReadOutcome)
    ensures r == Stopped <==> framesToValidate >= 1 && !holding && !actioning
    ensures r == Dispatch(true, true) <==> framesToValidate >= 1 && holding && actioning
    ensures r == Dispatch(false, true) <==> holding && (!actioning || framesToValidate <= 0)
    ensures r == Dispatch(true, false) <==> actioning && !holding
    ensures r == Waiting <==> framesToValidate <= 0 && !holding && !actioning
  {
    if framesToValidate >= 1 && !holding && !actioning then Stopped
    else if framesToValidate >= 1 && holding && actioning then Dispatch(true, true)
    else if holding then Dispatch(false, true)
    else if actioning then Dispatch(true, false)
    else Waiting
  }

  /** Validating for more than one frame decides nothing that one frame does not. */
  lemma NoValidationWindow(holding: bool, actioning: bool, framesToValidate: int)
    requires framesToValidate >= 1
    ensures Classify(holding, actioning, framesToValidate) == Classify(holding, actioning, 1)
  {
  }

  /** The loop of `ReadActions` (lines 109-121) and the two checks after it. */
  method ReadActionsOutcome(holding: bool, actioning: bool, framesToValidate: int) returns (r: ReadOutcome)
    ensures r == Classify(holding, actioning, framesToValidate)
  {
    var i := 0;
    while i < framesToValidate
      invariant 0 <= i
      invariant i > 0 ==> (holding || actioning) && !(holding && actioning)
    {
      if !holding && !actioning {
        return Stopped;
      }
      if holding && actioning {
        return Dispatch(true, true);
      }
      i := i + 1;
    }
    if holding {
      return Dispatch(false, true);
    }
    if actioning {
      return Dispatch(true, false);
    }
    return Waiting;
  }

  // -------------------------------------------------------------- HandleActions

  /** C#'s `n / 2` on `int`, which truncates toward zero. */
  function HalfTowardZero(n: int): int
  {
    if n >= 0 then n / 2 else -((-n) / 2)
  }

  /** `midFrame`: the loop iteration at which a flash run captures. */
  function MidFrame(frames: int): int
  {
    HalfTowardZero(frames)
  }

  /**
   * For a flash run that loops at all, the capture iteration is one of its
   * `frames` iterations, and it is the first exactly when the run is one
   * frame long.
   */
  lemma MidFrameInLoop(frames: int)
    requires frames >= 1
    ensures 0 <= MidFrame(frames) < frames
    ensures MidFrame(frames) == 0 <==> frames == 1
  {
  }

  /** What `PlaPicture` does that can be observed: the light, captures, and waits for the next frame. */
  datatype Effect = LightOn | LightOff | Capture | NextFrame

  function Repeat(e: Effect, n: nat): (r: seq<Effect>)
    ensures |r| == n && forall k :: 0 <= k < n ==> r[k] == e
  {
    if n == 0 then [] else Repeat(e, n - 1) + [e]
  }

  /** Iteration `j` of the flash loop: a capture at `midFrame`, then a `yield return null`. */
  function IterationEffects(photo: bool, midFrame: int, j: int): seq<Effect>
  {
    (if photo && j == midFrame then [Capture] else []) + [NextFrame]
  }

  /** The first `k` iterations of the flash loop. */
  function Iterations(photo: bool, midFrame: int, k: nat): seq<Effect>
  {
    if k == 0 then [] else Iterations(photo, midFrame, k - 1) + IterationEffects(photo, midFrame, k - 1)
  }

  /** The flash branch of `HandleActions`, for the `midFrame` it computed. */
  function FlashTrace(photo: bool, midFrame: int, frames: int): seq<Effect>
  {
    [LightOn] + Iterations(photo, midFrame, if frames > 0 then frames else 0) + [LightOff]
  }

  /** Every effect of one `HandleActions(photo, flash)` run that waits for `frames` frames. */
  function Trace(photo: bool, flash: bool, frames: int): seq<Effect>
  {
    if flash then FlashTrace(photo, MidFrame(frames), frames)
    else if photo then [Capture]
    else []
  }

  /** The flash loop waits one frame per iteration and captures once, at `midFrame`, if at all. */
  lemma {:induction false} IterationsClosedForm(photo: bool, midFrame: nat, k: nat)
    ensures !photo || k <= midFrame ==> Iterations(photo, midFrame, k) == Repeat(NextFrame, k)
    ensures photo && k > midFrame ==>
      Iterations(photo, midFrame, k) == Repeat(NextFrame, midFrame) + [Capture] + Repeat(NextFrame, k - midFrame)
  {
    if k > 0 {
      IterationsClosedForm(photo, midFrame, k - 1);
      if photo && k - 1 > midFrame {
        assert Repeat(NextFrame, k - 1 - midFrame) + [NextFrame] == Repeat(NextFrame, k - midFrame);
      }
    }
  }

  /** `Trace` spelt out: the order of the light, the waits and the capture. */
  lemma TraceClosedForm(photo: bool, flash: bool, frames: int)
    ensures flash && photo && frames >= 1 ==>
      Trace(photo, flash, frames) ==
        [LightOn] + Repeat(NextFrame, frames / 2) + [Capture] + Repeat(NextFrame, frames - frames / 2) + [LightOff]
    ensures flash && !(photo && frames >= 1) ==>
      Trace(photo, flash, frames) == [LightOn] + Repeat(NextFrame, if frames > 0 then frames else 0) + [LightOff]
    ensures !flash ==> Trace(photo, flash, frames) == (if photo then [Capture] else [])
  {
    if frames >= 0 {
      IterationsClosedForm(photo, frames / 2, frames);
    }
  }

  /** How many times `x` occurs in `s`. */
  function Count(s: seq<Effect>, x: Effect): nat
  {
    if s == [] then 0 else Count(s[..|s| - 1], x) + (if s[|s| - 1] == x then 1 else 0)
  }

  lemma {:induction false} CountAppend(s: seq<Effect>, t: seq<Effect>, x: Effect)
    ensures Count(s + t, x) == Count(s, x) + Count(t, x)
  {
    if t != [] {
      CountAppend(s, t[..|t| - 1], x);
      assert (s + t)[..|s + t| - 1] == s + t[..|t| - 1];
    } else {
      assert s + t == s;
    }
  }

  lemma {:induction false} RepeatCount(e: Effect, n: nat, x: Effect)
    ensures Count(Repeat(e, n), x) == (if x == e then n else 0)
  {
    if n > 0 {
      RepeatCount(e, n - 1, x);
      assert Repeat(e, n)[..n - 1] == Repeat(e, n - 1);
    }
  }

  /**
   * A run waits `max(frames, 0)` frames when it flashes and none otherwise,
   * turns the light on and off once each when it flashes, and captures once
   * exactly when `photo && (!flash || frames >= 1)`.
   */
  lemma TraceCounts(photo: bool, flash: bool, frames: int, x: Effect)
    ensures x == NextFrame ==> Count(Trace(photo, flash, frames), x) == (if flash && frames > 0 then frames else 0)
    ensures x == Capture ==> Count(Trace(photo, flash, frames), x) == (if photo && (!flash || frames >= 1) then 1 else 0)
    ensures x == LightOn || x == LightOff ==> Count(Trace(photo, flash, frames), x) == (if flash then 1 else 0)
  {
    TraceClosedForm(photo, flash, frames);
    if flash && photo && frames >= 1 {
      FlashWithCaptureCount(frames / 2, frames - frames / 2, x);
    } else if flash {
      FlashCount(if frames > 0 then frames else 0, x);
    }
  }

  lemma FlashWithCaptureCount(a: nat, b: nat, x: Effect)
    ensures Count([LightOn] + Repeat(NextFrame, a) + [Capture] + Repeat(NextFrame, b) + [LightOff], x)
      == (if x == NextFrame then a + b else 1)
  {
    var before, after := Repeat(NextFrame, a), Repeat(NextFrame, b);
    RepeatCount(NextFrame, a, x);
    RepeatCount(NextFrame, b, x);
    CountAppend([LightOn], before, x);
    CountAppend([LightOn] + before, [Capture], x);
    CountAppend([LightOn] + before + [Capture], after, x);
    CountAppend([LightOn] + before + [Capture] + after, [LightOff], x);
  }

  lemma FlashCount(n: nat, x: Effect)
    ensures Count([LightOn] + Repeat(NextFrame, n) + [LightOff], x)
      == (if x == NextFrame then n else if x == Capture then 0 else 1)
  {
    RepeatCount(NextFrame, n, x);
    CountAppend([LightOn], Repeat(NextFrame, n), x);
    CountAppend([LightOn] + Repeat(NextFrame, n), [LightOff], x);
  }

  /** A flash run with a photo captures after exactly `frames / 2` frame waits. */
  lemma CaptureAtMidFrame(photo: bool, frames: int)
    requires photo && frames >= 1
    ensures var t := Trace(photo, true, frames);
      var p := 1 + frames / 2;
      && p < |t| && t[p] == Capture && Count(t[..p], NextFrame) == frames / 2
  {
    TraceClosedForm(photo, true, frames);
    var t := Trace(photo, true, frames);
    var p := 1 + frames / 2;
    assert t[..p] == [LightOn] + Repeat(NextFrame, frames / 2);
    RepeatCount(NextFrame, frames / 2, NextFrame);
    CountAppend([LightOn], Repeat(NextFrame, frames / 2), NextFrame);
  }

  // ------------------------------------------------------------------ TakePhoto

  /** `1 << layer` for a layer index. */
  function LayerBit(layer: int): bv32
    requires 0 <= layer < 32
  {
    (1 as bv32) << layer
  }

  /**
   * The culling mask the capture renders with: the camera's mask with the
   * bit of `layer` cleared, or the mask itself when the layer does not
   * exist (`-1`).
   */
  function RenderMask(mask: bv32, layer: int): (r: bv32)
    requires -1 <= layer < 32
    ensures layer == -1 ==> r == mask
    ensures layer != -1 ==> r & LayerBit(layer) == 0 && r | LayerBit(layer) == mask | LayerBit(layer)
  {
    if layer != -1 then mask & !LayerBit(layer) else mask
  }
}
