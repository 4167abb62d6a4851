# HorrorGameCamera capture core, modelled in Dafny

This project models the camera-capture prototype of the Unity game
HorrorGameCamera, with proofs. It covers two capture controllers and their
support code:

- **`PlaPicture`** (`PlaPictures`, with `CaptureLogic` and `Screenshots`).
  Six input callbacks set and clear a hold flag and an action flag. They
  start `ReadActions` while no read routine's handle is stored.
  `ReadActions` classifies the flag pair into one `HandleActions(photo, flash)`
  call. `HandleActions` lights the flash for `frames` frames and captures at
  frame `frames / 2`. `TakePhoto` renders with the player's layer bit cleared
  and puts the culling mask back. It names the file
  `Ss<yyyyMMddHHmmss>.png` and saves it under `Assets/Screenshots/`.
- **`PlayerPhotoCamera`** (`PhotoCameras`). A right-button hold timer:
  - a short press flashes;
  - a press held for `holdTime` flashes and takes a photo;
  - the capture buffer is reused while its size matches the render texture;
  - a display routine shows the photo on a quad for `photoDuration`, and
    each new photo stops the previous routine.
- **`Utils`, `GameManager`, `PlaController`** (`Localization`, `Dict`,
  `MathUtils`, `StringUtils`, `Text`, `Game`, `PlaControl`, `Retry`):
  - the translation table and its reload rule;
  - `ToDictionary`;
  - the frame-rate choice of `SecondsToFrames`;
  - the size tag;
  - the setters that fire their events only on a change;
  - the bounded polling loops with the sensitivity fall-back.
- **`IconDictionaryCreator`** (`FolderIcons`):
  - choosing the icons directory with a cached index;
  - separator normalisation;
  - rebuilding the folder-icon dictionary, where `.png` stems come first and
    folder names are added with `TryAdd`.

Objects whose fields the C# updates are Dafny classes, with field-granular
`modifies` clauses. Every engine fact is a parameter of the model:

- whether a singleton instance is live at each poll;
- directory existence and listings;
- the language file as parsed;
- `DateTime.Now`;
- `Time.deltaTime`;
- the render-texture size.

The model follows the code where the code and its comments part ways:

- The loop of `ReadActions` has no `yield`. Every one of its
  `framesToValidate` iterations sees the same flags in the same frame, so
  there is no multi-frame validation window (`CaptureLogic.NoValidationWindow`).
- With `framesToValidate <= 0` the "both flags" check never runs. Both flags
  set then give a flash without a photo.
- The context-menu method `SetGameStateToGameOver` sets `Loading`.

**Coroutines.**

- A coroutine is a value stored on its object. `PlaPicture.readLive` and
  `handleRun` are the two routines suspended at a `yield return null`, and
  `PlaPicture.Tick` is the engine resuming them one frame later.
- `StartCoroutine` runs the body up to its first `yield` before it returns,
  and the model includes this. A routine that ends without yielding has
  already cleared its own field when `??=` assigns the returned handle.
  Whether that handle is null is left as the parameter `finishedHandleNonNull`.
  When it is non-null, the handle stays set until a cancel handler clears it.
  For `_handleActionsCoroutine` nothing clears it, and no further
  `HandleActions` can ever start (`StaleHandle`, kept by every operation).
- The routines `Awake` starts behave the same way (`StartGetInputActions` in
  both controllers, `PlaController.StartGetManagerStuff`). When the first
  poll succeeds, the routine nulls its field and ends before `??=` stores
  the returned handle. With a non-null handle the field then stays set.
  The routine's own nulling, meant to let a later start reuse the field
  (`PlaController.cs:60`), achieves that only when the routine yielded.
- In `PlayerPhotoCamera`, the flash routines are a sequence, because their
  handles are not kept and several can be live at once. At most one display
  routine is live at a time.
- A routine suspended during the current frame carries `newThisFrame` and is
  not resumed until the next frame.

## Model

| member | source | states |
|---|---|---|
| CaptureLogic.Classify | Assets/Devs/Fercho/Scripts/PlaPicture.cs:109-132 | Each outcome, as an if-and-only-if over the flags and `framesToValidate`. Neither flag (with at least one frame) stops. Both flags give photo and flash; hold alone, or both with no frames, gives flash only; action alone gives photo only. No flag with no frames waits one frame. |
| CaptureLogic.ReadActionsOutcome | Assets/Devs/Fercho/Scripts/PlaPicture.cs:109-132 | The counted loop of `ReadActions` and the two checks after it end in exactly the outcome `Classify` gives. |
| CaptureLogic.NoValidationWindow | Assets/Devs/Fercho/Scripts/PlaPicture.cs:109-121 | Any `framesToValidate >= 1` decides the same as a single frame: the loop does not wait across frames. |
| CaptureLogic.MidFrameInLoop | Assets/Devs/Fercho/Scripts/PlaPicture.cs:139-147 | For `frames >= 1` the capture iteration `frames / 2` is one of the loop's iterations, so such a run with a photo always captures. It is iteration 0 exactly when `frames == 1`. |
| CaptureLogic.IterationsClosedForm | Assets/Devs/Fercho/Scripts/PlaPicture.cs:142-148 | The first `k` loop iterations are `k` frame waits, with one capture after `midFrame` waits when `photo` holds and `k > midFrame`. |
| CaptureLogic.TraceClosedForm | Assets/Devs/Fercho/Scripts/PlaPicture.cs:138-154 | A `HandleActions` run in order: light on, `frames / 2` waits, the capture, the remaining waits, light off. Without a photo (or with `frames <= 0`) there is no capture. Without a flash there is only a capture when `photo` holds. |
| CaptureLogic.TraceCounts | Assets/Devs/Fercho/Scripts/PlaPicture.cs:138-154 | A run waits `max(frames, 0)` frames when flashing and none otherwise. It switches the light on and off once each exactly when flashing. It captures exactly once when `photo && (!flash \|\| frames >= 1)`, and never otherwise. |
| CaptureLogic.CaptureAtMidFrame | Assets/Devs/Fercho/Scripts/PlaPicture.cs:139-147 | In a flash run with a photo, the capture comes after exactly `frames / 2` frame waits. |
| CaptureLogic.RenderMask | Assets/Devs/Fercho/Scripts/PlaPicture.cs:161-162 | For a real layer, the render mask has that layer's bit clear and every other bit as in the camera's mask. For layer -1 it is the mask itself. |
| Screenshots.ScreenshotName | Assets/Devs/Fercho/Scripts/PlaPicture.cs:174 | The name is 20 characters: `Ss`, 14 digits, `.png`. |
| Screenshots.ParseScreenshotNameRoundTrip | Assets/Devs/Fercho/Scripts/PlaPicture.cs:174 | The capture time can be read back from the file name. |
| Screenshots.ScreenshotNameOfParse | Assets/Devs/Fercho/Scripts/PlaPicture.cs:174 | Every string that parses as a name is the name of the time it parses to. |
| Screenshots.ScreenshotNameInjective | Assets/Devs/Fercho/Scripts/PlaPicture.cs:174 | Two times give the same name if and only if they are equal to the second. |
| Text.PadDigits | Assets/Devs/Fercho/Scripts/PlaPicture.cs:174 | A fixed-width field of the date format is `w` decimal digits denoting the number. |
| Text.PadDigitsValue | Assets/Devs/Fercho/Scripts/PlaPicture.cs:174 | Re-padding the value of a digit string gives the same string: the fields are read back exactly. |
| PlaPictures.ShotFileCollision | Assets/Devs/Fercho/Scripts/PlaPicture.cs:174-177 | Two saved captures write the same file, the later overwriting the earlier, exactly when they were taken in the same second. |
| PlaPictures.PlaPicture.constructor | Assets/Devs/Fercho/Scripts/PlaPicture.cs:32-40 | The object starts with both flags clear, no handles, no suspended routine, the light off and no captures. The class invariant holds. The routine start on line 37 is `StartGetInputActions`, which follows it. |
| PlaPictures.PlaPicture.StartGetInputActions | Assets/Devs/Fercho/Scripts/PlaPicture.cs:37-56 | Under the guard (no singleton yet, no handle), one routine is started. The singleton is found exactly when `FirstWithin` finds a poll. Found at the first poll: the routine never yields, and the stored handle is the engine's handle for a finished routine. Found later: the handle is null. Not found: the component is disabled and the routine's handle stays stored. Without the guard nothing changes. |
| PlaPictures.PlaPicture.GetInputActions | Assets/Devs/Fercho/Scripts/PlaPicture.cs:42-56 | Finding the input singleton within `MaxTries` (20) retries subscribes the handlers and clears the handle. Otherwise the component is disabled and the handle is kept. |
| PlaPictures.PlaPicture.SubscribeToActions | Assets/Devs/Fercho/Scripts/PlaPicture.cs:58-71 | The handlers are registered only when the input singleton was found. |
| PlaPictures.PlaPicture.TakePhoto | Assets/Devs/Fercho/Scripts/PlaPicture.cs:159-181 | Appends exactly one capture: rendered with `RenderMask` and stamped with `now`, saved only when `saveToFolder`, and the folder created first. On return the culling mask is unchanged and neither render target is set. The material shows the new capture. |
| PlaPictures.PlaPicture.StartHandleActions | Assets/Devs/Fercho/Scripts/PlaPicture.cs:136-157 | With a flash and `frames >= 1`, the run lights up, runs iteration 0 and stays suspended with its handle stored. Otherwise it does exactly its `Trace` and ends, and the stored handle is the one the engine returns for a finished routine. The mask is unchanged. Exactly one capture is appended when `photo` holds and the run captures before its first `yield` (no flash, or a one-frame flash), and none otherwise. Without a capture the folder and the material are unchanged. |
| PlaPictures.PlaPicture.RunWithoutYield | Assets/Devs/Fercho/Scripts/PlaPicture.cs:140-154 | A run that never yields does its whole `Trace` at once. It leaves the light off, and captures exactly when `photo && !flash`. |
| PlaPictures.PlaPicture.FlashStart | Assets/Devs/Fercho/Scripts/PlaPicture.cs:140-148 | The flash branch up to its first `yield`: light on, iteration 0, the run suspended with its handle stored. |
| PlaPictures.PlaPicture.FlashIteration | Assets/Devs/Fercho/Scripts/PlaPicture.cs:143-147 | One loop iteration captures exactly when `photo` holds and the iteration is `midFrame`, then waits one frame. |
| PlaPictures.PlaPicture.FinishHandle | Assets/Devs/Fercho/Scripts/PlaPicture.cs:156 | A run that ended before yielding nulls its field, after which `??=` stores the engine's handle. |
| PlaPictures.PlaPicture.Tick | Assets/Devs/Fercho/Scripts/PlaPicture.cs:132-157 | One frame ends a waiting `ReadActions` and advances a suspended flash run by one iteration. After its last iteration the run switches the light off and clears its handle, and what it did since it started is exactly its `FlashTrace`. Exactly one capture is appended when the new iteration is `midFrame`, and none otherwise. A frame that captures nothing leaves the folder and the material as they were. A stale handle stays stale and nothing happens. |
| PlaPictures.PlaPicture.ResumeFlash | Assets/Devs/Fercho/Scripts/PlaPicture.cs:142-148 | A suspended run resumes into its next iteration, and captures only if that is `midFrame`. |
| PlaPictures.PlaPicture.EndFlash | Assets/Devs/Fercho/Scripts/PlaPicture.cs:149-156 | After the last yield the light goes off and the handle is nulled. The run's effects add up to its `FlashTrace`. |
| PlaPictures.PlaPicture.StartReadActions | Assets/Devs/Fercho/Scripts/PlaPicture.cs:107-134 | A read routine decides at once, by `Classify`. It starts `HandleActions` only when no handle is stored, and then appends exactly the captures that run takes before its first `yield`; otherwise it changes nothing observable, the folder and the material included. It suspends only in the case with no flags and no frames. |
| PlaPictures.PlaPicture.ReadDispatches | Assets/Devs/Fercho/Scripts/PlaPicture.cs:115-130 | A dispatch while no `HandleActions` handle is stored starts one run with the classified flags, with exactly its captures, then ends the read routine. |
| PlaPictures.PlaPicture.ReadWithoutDispatch | Assets/Devs/Fercho/Scripts/PlaPicture.cs:109-133 | A read routine that stops, meets a stored `HandleActions` handle, or has neither flag with no frames to validate changes only its own handle, which it stores as `ReadRan` says. It suspends exactly in the last case. |
| PlaPictures.PlaPicture.FinishRead | Assets/Devs/Fercho/Scripts/PlaPicture.cs:112-130 | A read routine that ended nulls its field, after which `??=` stores the engine's handle. |
| PlaPictures.PlaPicture.OnCamHold | Assets/Devs/Fercho/Scripts/PlaPicture.cs:93-96 | Sets the hold flag and leaves the action flag. It starts `ReadActions` only when its handle is null, and otherwise changes nothing else. The culling mask is always kept. Only the fields of the flag and of the routines can change. |
| PlaPictures.PlaPicture.OnCamAction | Assets/Devs/Fercho/Scripts/PlaPicture.cs:102-105 | Sets the action flag and leaves the hold flag. It starts `ReadActions` only when its handle is null, and otherwise changes nothing else. The culling mask is always kept. Only the fields of the flag and of the routines can change. |
| PlaPictures.PlaPicture.StopReadActions | Assets/Devs/Fercho/Scripts/PlaPicture.cs:90-91 | Stops the routine the handle names, if it is still live, and nulls the handle. |
| PlaPictures.PlaPicture.OnCamHoldCanceled | Assets/Devs/Fercho/Scripts/PlaPicture.cs:88-92 | Clears the hold flag and stops and nulls the read routine. The action flag is untouched (frame). |
| PlaPictures.PlaPicture.OnCamActionCanceled | Assets/Devs/Fercho/Scripts/PlaPicture.cs:97-101 | Clears the action flag and stops and nulls the read routine. The hold flag is untouched (frame). |
| Retry.FirstWithin | Assets/Devs/Fercho/Scripts/PlaPicture.cs:44-49 | The first successful poll among the initial one and `maxTries` retries, or none when all of them fail. |
| Retry.Poll | Assets/Devs/Fercho/Scripts/PlaPicture.cs:44-49 | The polling loop succeeds exactly when `FirstWithin` finds a poll, after that many retries, and gives up after `maxTries`. |
| PhotoCameras.HoldStep | Assets/_base/PlayerController/Scrips/PlayerPhotoCamera.cs:53-84 | A press restarts the timer, and a held button adds `dt` while holding. Flash-and-photo starts exactly when the held timer reaches `holdTime`. Flash-only starts exactly on a release while holding below `holdTime`. The hold survives exactly when there is no release and no photo start. |
| PhotoCameras.NoStartWithoutPress | Assets/_base/PlayerController/Scrips/PlayerPhotoCamera.cs:56-83 | Without a hold in progress and with no press, no frame starts a routine. |
| PhotoCameras.AtMostOneStartPerPress | Assets/_base/PlayerController/Scrips/PlayerPhotoCamera.cs:63-83 | Between two presses, `FlashOnly` and `FlashAndTakePhoto` together start at most once. |
| PhotoCameras.Resumed | Assets/_base/PlayerController/Scrips/PlayerPhotoCamera.cs:87-116 | A flash routine ends (light off) exactly when its wait has seen `flashDuration`. A `FlashAndTakePhoto` past its frame wait moves to its wait after the capture. |
| PhotoCameras.FlashLasts | Assets/_base/PlayerController/Scrips/PlayerPhotoCamera.cs:92-93 | A flash routine in a wait stays live exactly while the frames since it started add up to less than `flashDuration`. |
| PhotoCameras.FlashAndTakePhotoTimeline | Assets/_base/PlayerController/Scrips/PlayerPhotoCamera.cs:100-113 | `FlashAndTakePhoto` with a light does not capture in the frame it starts. It captures in the next frame, then waits. |
| PhotoCameras.AwaitingAfterResume | Assets/_base/PlayerController/Scrips/PlayerPhotoCamera.cs:105-108 | Each resumption that captures takes one run out of the awaiting stage, and no other run enters or leaves it. |
| PhotoCameras.SurvivorsKeepAll | Assets/_base/PlayerController/Scrips/PlayerPhotoCamera.cs:92-114 | When no wait is over, every flash routine survives the frame. |
| PhotoCameras.ShowResumed | Assets/_base/PlayerController/Scrips/PlayerPhotoCamera.cs:149-154 | A display routine ends, hiding the quad, exactly when its wait has seen `photoDuration`. Otherwise it keeps its identity and accumulates `dt`. |
| PhotoCameras.ShowLasts | Assets/_base/PlayerController/Scrips/PlayerPhotoCamera.cs:151-153 | The quad stays up exactly while the frames since the display started add up to less than `photoDuration`. |
| PhotoCameras.WithoutRoutine | Assets/_base/PlayerController/Scrips/PlayerPhotoCamera.cs:141-142 | Stopping a routine removes exactly its runs and keeps every other live run. |
| PhotoCameras.PlayerPhotoCamera.constructor | Assets/_base/PlayerController/Scrips/PlayerPhotoCamera.cs:15-27 | The component as placed in the scene: not holding, timer 0, no photo, no routines. |
| PhotoCameras.PlayerPhotoCamera.Start | Assets/_base/PlayerController/Scrips/PlayerPhotoCamera.cs:29-51 | Without the photo camera or the render texture, the component disables itself and changes nothing else. Otherwise the camera, the quad (when present) and the light are off, and the material is taken from the quad. |
| PhotoCameras.PlayerPhotoCamera.TakePhoto | Assets/_base/PlayerController/Scrips/PlayerPhotoCamera.cs:119-146 | Afterwards the buffer has the render texture's size. It is reallocated only when missing or of another size, and the render targets are reset. With a quad, the new photo is shown and exactly one display routine, a new one, is live. |
| PhotoCameras.PlayerPhotoCamera.Capture | Assets/_base/PlayerController/Scrips/PlayerPhotoCamera.cs:121-133 | The buffer-reuse rule: same buffer when the size matches, a fresh allocation otherwise. Both render targets are null on return. |
| PhotoCameras.PlayerPhotoCamera.ShowPhoto | Assets/_base/PlayerController/Scrips/PlayerPhotoCamera.cs:141-144 | The previous display routine is stopped. Exactly one, newly started, is live, its handle is kept, and the quad is active. |
| PhotoCameras.PlayerPhotoCamera.StartFlashAndTakePhoto | Assets/_base/PlayerController/Scrips/PlayerPhotoCamera.cs:98-108 | With a light: light on, and the run waits for the next frame before capturing. Without one: the photo is taken at once. Either way one photo run is counted. |
| PhotoCameras.PlayerPhotoCamera.LightForPhoto | Assets/_base/PlayerController/Scrips/PlayerPhotoCamera.cs:100-106 | The light goes on and a run awaiting its capture is added. |
| PhotoCameras.PlayerPhotoCamera.PhotoWithoutLight | Assets/_base/PlayerController/Scrips/PlayerPhotoCamera.cs:108 | Without a light the routine takes its one photo before returning. |
| PhotoCameras.PlayerPhotoCamera.StartFlashOnly | Assets/_base/PlayerController/Scrips/PlayerPhotoCamera.cs:87-95 | With a light: light on and a wait added. Without one: nothing happens. |
| PhotoCameras.PlayerPhotoCamera.Update | Assets/_base/PlayerController/Scrips/PlayerPhotoCamera.cs:53-84 | The new hold state and the routine started are `HoldStep`'s. The flash routines are the old ones plus `StartedRun`: a `FlashOnly` wait or a `FlashAndTakePhoto` frame wait with a light, nothing without one. The light goes on exactly when a routine starts with a light. Without a light `FlashAndTakePhoto` takes its photo at once; no other start captures. |
| PhotoCameras.PlayerPhotoCamera.PressAndHold | Assets/_base/PlayerController/Scrips/PlayerPhotoCamera.cs:56-73 | A press restarts the hold, and holding adds `dt`. Reaching `holdTime` starts `FlashAndTakePhoto` and ends the hold. With a light, an awaiting run is appended to the old ones and nothing is captured. Without one, the photo is taken at once and the routines are unchanged. |
| PhotoCameras.PlayerPhotoCamera.Release | Assets/_base/PlayerController/Scrips/PlayerPhotoCamera.cs:76-83 | `FlashOnly` starts exactly on a release while holding below `holdTime`. With a light it puts the light on and appends a `FlashWait` run to the old ones. Otherwise the routines and the light are unchanged. Any release ends the hold. |
| PhotoCameras.StartedRun | Assets/_base/PlayerController/Scrips/PlayerPhotoCamera.cs:70-80 | A start leaves a suspended run exactly when it is a flash routine started with a light. `FlashOnly` waits for `flashDuration` and `FlashAndTakePhoto` waits for the next frame, both new this frame with nothing elapsed. |
| PhotoCameras.StartedRunWaits | Assets/_base/PlayerController/Scrips/PlayerPhotoCamera.cs:87-108 | A routine started in a frame is not resumed in it. It neither captures nor switches the light off then. |
| PhotoCameras.StartedRunSurvives | Assets/_base/PlayerController/Scrips/PlayerPhotoCamera.cs:87-108 | A routine started in a frame survives it, after the older survivors, and only loses its new-this-frame mark. |
| PhotoCameras.PlayerPhotoCamera.ResumeFlashes | Assets/_base/PlayerController/Scrips/PlayerPhotoCamera.cs:87-116 | Every flash routine resumes once. Those whose wait is over switch the light off and end. Each capture-ready `FlashAndTakePhoto` takes exactly one photo. The light stays as it was when no wait ends. |
| PhotoCameras.PlayerPhotoCamera.ResumeEach | Assets/_base/PlayerController/Scrips/PlayerPhotoCamera.cs:87-116 | The loop over the routines gives `Survivors` and adds `CaptureCount` photos. |
| PhotoCameras.PlayerPhotoCamera.ResumeOne | Assets/_base/PlayerController/Scrips/PlayerPhotoCamera.cs:100-114 | One resumption does what `Resumed` says, and takes a photo exactly when the routine passes its frame wait. |
| PhotoCameras.PlayerPhotoCamera.AfterWait | Assets/_base/PlayerController/Scrips/PlayerPhotoCamera.cs:92-93 | A wait that has seen `flashDuration` switches the light off and ends the routine. |
| PhotoCameras.PlayerPhotoCamera.ResumeShows | Assets/_base/PlayerController/Scrips/PlayerPhotoCamera.cs:152-153 | The display routine ends and hides the quad exactly when its wait is over. `photoRoutine` keeps its handle. |
| PhotoCameras.PlayerPhotoCamera.ResumeRoutines | Assets/_base/PlayerController/Scrips/PlayerPhotoCamera.cs:87-154 | After `Update`, all suspended routines resume once, and the invariants are kept: at most one display routine, and each photo run either awaiting its capture or counted once. |
| PhotoCameras.PlayerPhotoCamera.Frame | Assets/_base/PlayerController/Scrips/PlayerPhotoCamera.cs:53-84 | A frame steps the hold machine by `HoldStep` only while enabled, and otherwise leaves it. The flash routines afterwards are `Survivors` of the old ones plus the one started. The photos taken are `CaptureCount` of the old ones, plus one for `FlashAndTakePhoto` without a light. The light is off when some wait ends, and otherwise on exactly when it was on or a routine started with a light. |
| StringUtils.AddSizeTagToString | Assets/Devs/Fercho/Scripts/Utils/Utils.cs:49-52 | The result opens with `<size=`, ends with ` </size>` and is 16 characters longer than the input plus the number. |
| StringUtils.ParseAddSizeTag | Assets/Devs/Fercho/Scripts/Utils/Utils.cs:49-52 | The tagged string gives back its input and size. |
| StringUtils.AddSizeTagInjective | Assets/Devs/Fercho/Scripts/Utils/Utils.cs:49-52 | Different (input, size) pairs give different tagged strings. |
| Text.IntToString | Assets/Devs/Fercho/Scripts/Utils/Utils.cs:50 | `int.ToString()`: digits, with a leading minus sign when negative. |
| Text.ParseIntToString | Assets/Devs/Fercho/Scripts/Utils/Utils.cs:50 | The printed number reads back as itself. |
| MathUtils.FrameRate | Assets/Devs/Fercho/Scripts/Utils/Utils.cs:204-206 | The manager's `TargetFrameRate` when a manager exists and its rate is positive, else 60. The rate is always positive. |
| MathUtils.RoundToInt | Assets/Devs/Fercho/Scripts/Utils/Utils.cs:207 | The nearest integer, with a tie going to the even one. |
| MathUtils.RoundToIntUnique | Assets/Devs/Fercho/Scripts/Utils/Utils.cs:207 | Being nearest and even on ties determines the rounding. |
| MathUtils.SecondsToFrames | Assets/Devs/Fercho/Scripts/Utils/Utils.cs:202-208 | The frame count is within half a frame of seconds × time scale × frame rate. |
| MathUtils.DefaultFlashFrames | Assets/Devs/Fercho/Scripts/Utils/Utils.cs:202-208 | The default 0.25 s flash at time scale 1 lasts 15 frames when no positive frame rate is set. |
| MathUtils.ZeroDurationNoFrames | Assets/Devs/Fercho/Scripts/Utils/Utils.cs:202-208 | A zero duration or a zero time scale gives zero frames. |
| MathUtils.NegativeDurationNoFrames | Assets/Devs/Fercho/Scripts/Utils/Utils.cs:202-208 | A negative duration never gives a positive frame count. |
| MathUtils.RandFromArray | Assets/Devs/Fercho/Scripts/Utils/Utils.cs:220-224 | 0 for an empty array, else an element of the array. |
| Dict.LastWins | Assets/Devs/Fercho/Scripts/Utils/Utils.cs:126-129 | Indexer assignment binds exactly the keys given. |
| Dict.LastWinsAt | Assets/Devs/Fercho/Scripts/Utils/Utils.cs:126-129 | A key maps to the value at its last occurrence. |
| Dict.FirstWinsKeys | Assets/Plugins/SimpleFolderIcon/Editor/IconDictionaryCreator.cs:86-90 | `TryAdd` binds exactly the old keys and the new ones, and never changes an existing binding. |
| Dict.FirstWinsAt | Assets/Plugins/SimpleFolderIcon/Editor/IconDictionaryCreator.cs:86-90 | A new key maps to the value of its first entry. |
| Localization.LoadOutcome | Assets/Devs/Fercho/Scripts/Utils/Utils.cs:72-88 | A missing, non-object or empty file changes nothing. Otherwise the table is replaced by exactly the file's keys and `_lang` is set. |
| Localization.LoadTwiceIsLoadOnce | Assets/Devs/Fercho/Scripts/Utils/Utils.cs:81-88 | Loading the same file again is a no-op. |
| Localization.LoadedValue | Assets/Devs/Fercho/Scripts/Utils/Utils.cs:81-88 | After a load, each key has its last value in the file. |
| Localization.Lookup | Assets/Devs/Fercho/Scripts/Utils/Utils.cs:112-115 | The stored value when the key is present, the key itself otherwise. |
| Localization.LocalizationTable.constructor | Assets/Devs/Fercho/Scripts/Utils/Utils.cs:62-63 | The static table starts empty, with `_lang` English. |
| Localization.LocalizationTable.LoadLanguage | Assets/Devs/Fercho/Scripts/Utils/Utils.cs:66-95 | The table and `_lang` become `LoadOutcome`. An exception part-way through keeps the pairs read so far and the old `_lang`. |
| Localization.LocalizationTable.Translate | Assets/Devs/Fercho/Scripts/Utils/Utils.cs:97-116 | Returns the key, with nothing changed, when not playing, when quitting or without a manager. Otherwise it reloads exactly when the table is empty or in another language, and then looks the key up with the key as fall-back. |
| Localization.ToDictionary | Assets/Devs/Fercho/Scripts/Utils/Utils.cs:123-131 | Succeeds exactly when there are at least as many values as keys. The result is last-wins `LastWins` over exactly the set of keys. |
| Game.GameManager.constructor | Assets/Devs/Fercho/Scripts/GameManager.cs:26-34 | `gameStateStartsAsPlaying` sets `Playing` with one event, else `Paused` with none. `GetSharedValues` starts suspended, with its handle stored. |
| Game.GameManager.Tick | Assets/Devs/Fercho/Scripts/GameManager.cs:41-48 | A suspended `GetSharedValues` sets the sensitivity to 5 and clears its handle. Nothing else changes. |
| Game.GameManager.SetLanguage | Assets/Devs/Fercho/Scripts/GameManager.cs:50-58 | No-op for the current language. Otherwise it sets the language, loads it into the table, and fires `LanguageChanged` exactly once with it. |
| Game.GameManager.SetLanguageToEnglish | Assets/Devs/Fercho/Scripts/GameManager.cs:59 | As `SetLanguage` with English. No-op when English is current. Otherwise the table becomes `LoadOutcome` of the English file and one event fires. The game state, the sensitivity and its routine are untouched. |
| Game.GameManager.SetLanguageToSpanish | Assets/Devs/Fercho/Scripts/GameManager.cs:60 | As `SetLanguage` with Spanish. No-op when Spanish is current. Otherwise the table becomes `LoadOutcome` of the Spanish file and one event fires. The game state, the sensitivity and its routine are untouched. |
| Game.GameManager.SetGameState | Assets/Devs/Fercho/Scripts/GameManager.cs:62-67 | No change and no event for the current state. Otherwise the state changes and exactly one event with it fires. |
| Game.GameManager.SetGameStateToGameOver | Assets/Devs/Fercho/Scripts/GameManager.cs:68 | Sets `Loading`, despite its name. |
| Game.GameManager.SetGameStateToPlaying | Assets/Devs/Fercho/Scripts/GameManager.cs:69 | Sets `Playing`. |
| Game.GameManager.SetGameStateToPaused | Assets/Devs/Fercho/Scripts/GameManager.cs:70 | Sets `Paused`. |
| PlaControl.SettledSensitivity | Assets/Devs/Fercho/Scripts/PlaController.cs:49-59 | Always positive: the first positive reading within 50 retries, or the fall-back 5. |
| PlaControl.PlaController.constructor | Assets/Devs/Fercho/Scripts/PlaController.cs:14-20 | Nothing found yet, sensitivity 0, both handles null, vectors zero. |
| PlaControl.PlaController.StartGetManagerStuff | Assets/Devs/Fercho/Scripts/PlaController.cs:27-61 | Under Awake's guard (no manager or no positive sensitivity, and no handle), one routine is started. It ends before its first `yield` exactly when the manager is live and its sensitivity positive at the first reading. The stored handle is then the engine's handle for a finished routine. A routine that yields and succeeds leaves the handle null. One that fails disables the component and leaves its own handle stored. Without the guard nothing changes. |
| PlaControl.PlaController.StartGetInputActions | Assets/Devs/Fercho/Scripts/PlaController.cs:28-77 | Under Awake's guard, one routine is started. It subscribes exactly when the singleton is found within 50 retries. Found at the first poll: the engine's handle for a finished routine is stored. Found later: null. Not found: disabled, with its handle stored. |
| PlaControl.PlaController.GetManagerStuff | Assets/Devs/Fercho/Scripts/PlaController.cs:36-61 | The manager is found exactly when some poll within 50 retries finds it. If not, the component is disabled with the handle and sensitivity kept. If so, the sensitivity is `SettledSensitivity` (positive) and the handle is cleared. |
| PlaControl.PlaController.GetInputActions | Assets/Devs/Fercho/Scripts/PlaController.cs:63-77 | Subscribes and clears the handle exactly when the input singleton is found within 50 retries. Otherwise it disables the component. |
| PlaControl.PlaController.SubscribeToActions | Assets/Devs/Fercho/Scripts/PlaController.cs:79-90 | The handlers are registered only when the input singleton was found. |
| PlaControl.PlaController.OnMovePerformed | Assets/Devs/Fercho/Scripts/PlaController.cs:105 | Stores the incoming move vector. |
| PlaControl.PlaController.OnMoveCanceled | Assets/Devs/Fercho/Scripts/PlaController.cs:106 | Resets the move vector to zero. |
| PlaControl.PlaController.OnLookPerformed | Assets/Devs/Fercho/Scripts/PlaController.cs:107 | Stores the incoming look vector. |
| PlaControl.PlaController.OnLookCanceled | Assets/Devs/Fercho/Scripts/PlaController.cs:108 | Resets the look vector to zero. |
| FolderIcons.ReplaceSeparatorChar | Assets/Plugins/SimpleFolderIcon/Editor/IconDictionaryCreator.cs:65-68 | Same length. Every backslash becomes `/` and every other character is kept, so no backslash is left. |
| FolderIcons.ReplaceSeparatorCharIdempotent | Assets/Plugins/SimpleFolderIcon/Editor/IconDictionaryCreator.cs:65-68 | Normalising twice is normalising once. |
| FolderIcons.ReplaceSeparatorCharFixes | Assets/Plugins/SimpleFolderIcon/Editor/IconDictionaryCreator.cs:65-68 | A path without backslashes is unchanged. |
| FolderIcons.Stem | Assets/Plugins/SimpleFolderIcon/Editor/IconDictionaryCreator.cs:78 | The file name up to its last dot, or the whole name without one. |
| FolderIcons.ChosenIndex | Assets/Plugins/SimpleFolderIcon/Editor/IconDictionaryCreator.cs:18-34 | The cached index if its directory exists, else the first existing candidate, else 0. The result is always a valid index. |
| FolderIcons.PngEntries | Assets/Plugins/SimpleFolderIcon/Editor/IconDictionaryCreator.cs:76-79 | One entry per `.png` file: its stem with its texture. |
| FolderIcons.NameEntriesSkipNull | Assets/Plugins/SimpleFolderIcon/Editor/IconDictionaryCreator.cs:86-90 | Exactly the non-null folder names are offered, each with the asset's icon. |
| FolderIcons.PngStemsWin | Assets/Plugins/SimpleFolderIcon/Editor/IconDictionaryCreator.cs:75-92 | Every `.png` stem maps to its own texture. No folder name overrides it. |
| FolderIcons.IconsKeys | Assets/Plugins/SimpleFolderIcon/Editor/IconDictionaryCreator.cs:75-92 | The dictionary's keys are exactly the stems and the non-null folder names. |
| FolderIcons.FolderNameFirstWins | Assets/Plugins/SimpleFolderIcon/Editor/IconDictionaryCreator.cs:81-92 | A folder name that is no stem maps to the icon of the first asset that names it. |
| FolderIcons.AddEntries | Assets/Plugins/SimpleFolderIcon/Editor/IconDictionaryCreator.cs:76-79 | The `Add` loop succeeds exactly when the stems are distinct, and then binds each one to its texture. |
| FolderIcons.AddNames | Assets/Plugins/SimpleFolderIcon/Editor/IconDictionaryCreator.cs:86-90 | The inner `TryAdd` loop extends the first-wins dictionary by the asset's names. |
| FolderIcons.AddFolderIcons | Assets/Plugins/SimpleFolderIcon/Editor/IconDictionaryCreator.cs:82-92 | The `.asset` loop is first-wins over all folder entries, with assets that are not folder icons skipped. |
| FolderIcons.IconDictionaryCreator.constructor | Assets/Plugins/SimpleFolderIcon/Editor/IconDictionaryCreator.cs:10-16 | No cached index (-1) and no dictionary yet. |
| FolderIcons.IconDictionaryCreator.GetIconsPath | Assets/Plugins/SimpleFolderIcon/Editor/IconDictionaryCreator.cs:18-34 | Returns the candidate at the new cached index, which is `ChosenIndex` and always in range. |
| FolderIcons.IconDictionaryCreator.ContainsIconAsset | Assets/Plugins/SimpleFolderIcon/Editor/IconDictionaryCreator.cs:46-63 | With a cached index, true exactly when some normalised directory is the active path. Without one, true exactly when some normalised directory is any candidate. |
| FolderIcons.IconDictionaryCreator.BuildDictionary | Assets/Plugins/SimpleFolderIcon/Editor/IconDictionaryCreator.cs:70-94 | Succeeds exactly when the chosen directory exists and its stems are distinct. Then the dictionary is replaced by the stems-first, names-first-wins map. Otherwise the dictionary is unchanged. |
| FolderIcons.IconDictionaryCreator.OnPostprocessAllAssets | Assets/Plugins/SimpleFolderIcon/Editor/IconDictionaryCreator.cs:36-44 | Rebuilds exactly when one of the four lists touches the icons. Otherwise the index and the dictionary are unchanged. |

## Left out

- The engine's singleton (`Singleton.cs`), the input glue (`FerInputActions.cs`), `PlayerController.cs` and `FolderIconScrObj.cs` are not part of this model. Their instances, events and fields are parameters.
- Logging through `EDebug` and `enableDebugLogs`: logs are no-ops.
- `PlaController.FixedUpdate` and `Awake`'s cursor and component lookups: float movement, rotation and clamping.
- Rendering and read-back (`Render`, `ReadPixels`, `Apply`, `EncodeToPNG`, `Destroy`), and the pixel contents of captures. A capture is recorded by its mask, its time and whether it was saved.
- File and directory I/O, `Resources.Load`, JSON parsing, `AssetDatabase` and the path functions. Their results are inputs, and each changed asset is given by its `Path.GetDirectoryName`.
- A null `Path.GetDirectoryName` result, a null `folderNames` list in a folder-icon asset, null `keys`/`values` lists, and the null references of `flashEffectLight` and `photoQuad` that the code would throw on: engine object lifetimes.
- `UnsubscribeToActions`, `OnDisable` and `OnDestroy` of `PlaPicture` and `PlaController`: handler removal on teardown.
- `LazyUpdate` (empty), `InvokeRepeating`, the volume lookup and `QualityPreset` of `GameManager`, and the `Translate` call in its `OnAwake` log line.
- `AddColorToString`, `UpdateBarArray`, the vector helpers and the `Random` functions other than `RandFromArray`, whose index is a parameter.
- PlaPictures.PlaPicture.constructor: Awake's start of `GetInputActions` (line 37) is not part of the constructor. It is `StartGetInputActions`, called after it.
- MathUtils.RandFromArray: returns the element as an exact integer. The C# result is a `float`, so an element beyond 2^24 in magnitude comes back rounded.
- Culture: `size.ToString()` in `AddSizeTagToString` and the `yyyyMMddHHmmss` format of the capture name are rendered in the invariant culture. The C# uses the current culture, whose negative sign and calendar may differ.
- MathUtils.SecondsToFrames: the result of `Mathf.RoundToInt` is an unbounded integer. The C# conversion to `int` overflows when the product is outside the 32-bit range.
- A null `_cam` (no `Camera` on the object and no main camera), on which `TakePhoto` throws: the camera is taken to exist.
- MathUtils.RoundToInt: floats are reals, so single-precision error in `seconds * timeScale * frameRate` is not modelled.
- PhotoCameras.PlayerPhotoCamera.ResumeRoutines: the engine's order between resuming flash routines and the display routine within one frame is fixed here (flashes first).
- PhotoCameras.PlayerPhotoCamera.Frame: the engine enabling or disabling the component between frames is not modelled. Only `Start`'s own disabling is.
