# Install button widget: state machine and easing

A model of the script behind a single "Install" button on a web page. Clicking
the button plays a fixed-length progress-ring animation, driven by the
browser's animation-frame callback. When the animation ends, the button shows
"Open". Clicking "Open" resets the button to "Install".

The project has three modules:

- `Easing` (easing.dfy): the `easeInOut` curve and the progress clamp
  `min(elapsed / duration, 1)`, with duration 1800. Both are computed exactly over
  `real`. Lemmas give the curve's endpoints, its midpoint, where its two
  branches meet, its range, its symmetry and its strict monotonicity. Further
  lemmas show that, for a fixed start time and frames delivered in time order
  no earlier than it, the value the renderer receives never decreases
  (`EasedGrowsWithTime`). `ButtonState.RingGrowsAcrossFrames` states the same
  for two successive frames of one download.
- `ButtonState` (button_state.dfy): the button as a value. That value holds the
  class set (`install`, `loading`, `open`), the label text, `animating`,
  `startTime`, whether a frame is requested, and the arguments of the last
  `drawLoader` call. The click handler, `finish()` and a delivered frame
  (`animate`) are transition functions over it, and `Run` folds a sequence of
  clicks and frames. The lemmas state each transition's cases. They also show
  that from the initial button every sequence of events reaches only three
  shapes:
  - idle: `{install}`
  - downloading: `{install, loading}` with a frame requested
  - completed: `{open}`
- `ButtonWidget` (widget.dfy): the class `Widget`, whose fields are the script's
  module-level variables and the button's class list and label. It has the
  methods `Click`, `Frame`, `Animate` and `Finish`, and each one changes those
  fields in place. Each method is proved to make exactly the transition that
  `ButtonState` defines. The two events the host delivers, `Click` and `Frame`,
  keep the button in one of the three shapes. `Animate` and `Finish` do so
  only when called from inside `Frame`, after the frame request has been
  taken off. Called directly on a downloading button, `Finish` leaves a frame
  requested next to `{open}`.

Behaviour modelled as script.js has it:

- A click while downloading does nothing. The script has no cancel transition
  and never writes a "Cancel" label.
- `animate` does not check `animating` on entry. It runs whenever a frame it
  requested is delivered.
- `!startTime` (the predicate `Unset`) treats a recorded start time of 0 as
  unset. A frame after a first frame at time 0 therefore restarts the clock
  (`ZeroStartTimeRestarts`).
- Resetting from "Open" does not clear the canvas. The full ring stays drawn
  until the next run's first frame.
- The label keeps the page markup's text (`Label.Markup`) until the script
  first writes "Open" or "Install".

## Model

| member | source | states |
|---|---|---|
| `ButtonState.TickAt` | script.js:71-77 | the start is the frame's time or the recorded one; with the start unset, elapsed, progress and eased value are 0; start + elapsed = frame time; progress is below 1 exactly while elapsed < 1800; eased value in [0,1] when elapsed >= 0 |
| `ButtonState.AfterFinish` | script.js:88-94 | finish leaves exactly the class set {open}, and the result is the completed shape exactly when no frame is still requested |
| `ButtonState.OnlyOpenRemains` | script.js:91-92 | removing "loading" and "install" and then adding "open" leaves exactly {open}, whatever the classes were |
| `ButtonState.AfterAnimate` | script.js:70-85 | animate records a start time and a ring; a frame is requested afterwards exactly when one already was or elapsed < 1800; from 1800 on, classes are {open}, animating is false and the label is "Open"; run on a download whose request was taken off, it lands in one of the three shapes |
| `ButtonState.AfterFrame` | script.js:70-85 | a frame never creates a request that was not there; every frame keeps the button in one of the three shapes |
| `ButtonState.AfterClick` | script.js:96-113 | a click changes nothing exactly when "open" is absent and animating is set; every click keeps the button in one of the three shapes |
| `ButtonState.RingGrowsAcrossFrames` | script.js:71-84 | two successive frames of one download, in time order and no earlier than a recorded start, draw eased progress in [0,1] that does not decrease |
| `Easing.EaseInOut` | script.js:13-18 | on [0,1] the eased value lies in [0,1]; below 0.5 on [0,0.5), at least 0.5 on [0.5,1] |
| `Easing.Progress` | script.js:73-75 | progress never exceeds 1; it equals 1 exactly when elapsed >= 1800 and is below 1 exactly when elapsed < 1800; it is non-negative exactly when elapsed is; below the cap it is elapsed / 1800 |
| `Easing.EaseEndpoints` | script.js:13-18 | easeInOut(0) = 0 and easeInOut(1) = 1 |
| `Easing.EaseBranchesMeet` | script.js:13-18 | both branches give 0.5 at t = 0.5, so the curve is continuous where they meet |
| `Easing.EaseSymmetric` | script.js:13-18 | easeInOut(1 - t) = 1 - easeInOut(t) for every t: the out-half mirrors the in-half |
| `Easing.EaseMonotone` | script.js:13-18 | on [0,1] the curve is non-decreasing, and strictly increasing |
| `Easing.ProgressMonotone` | script.js:73-75 | a larger elapsed time never gives a smaller progress |
| `Easing.EasedGrowsWithTime` | script.js:73-77 | with a fixed start and frames no earlier than it, the eased value lies in [0,1] and never decreases from one frame to a later one |
| `Easing.SampleFrames` | script.js:73-77 | elapsed 0, 900 and 1800 give progress 0, 0.5 and 1 and eased values 0, 0.5 and 1 |
| `ButtonState.FinishShowsOpen` | script.js:88-94 | finish clears animating, removes "loading" and "install", adds "open", sets the label to "Open", and leaves the start time and frame request as they were |
| `ButtonState.ClickWhenOpen` | script.js:98-103 | with "open" present, a click removes "open", adds "install" and sets the label to "Install"; animating, start time, frame request and canvas are unchanged |
| `ButtonState.OpenCheckPrecedesGuard` | script.js:98-106 | the "open" check comes before the animating guard: with animating set, an open button still resets to "install" with label "Install", and animating stays set |
| `ButtonState.ClickWhileAnimating` | script.js:105-106 | without "open", a click while animating changes nothing |
| `ButtonState.ClickStarts` | script.js:108-112 | otherwise a click sets animating, resets the start time, adds "loading" to the classes already present, requests a frame, and keeps the label |
| `ButtonState.FirstFrameStartsClock` | script.js:71-77 | when the start time is unset, the frame's own time becomes the start, so elapsed, progress and eased value are all 0 |
| `ButtonState.ZeroStartTimeRestarts` | script.js:71 | `!startTime`, modelled by the predicate `Unset`, treats a recorded start time of 0 as unset, so the frame's time replaces it; any other start time is kept |
| `ButtonState.FrameContinuesIffBeforeDuration` | script.js:70-85 | a requested frame records the start, draws (eased progress, elapsed) and requests another frame exactly when elapsed < 1800; otherwise it is the finish of the drawn state; the eased value is in [0,1] when elapsed >= 0 |
| `ButtonState.UnrequestedFrameIgnored` | script.js:80-84 | a frame that no requestAnimationFrame call asked for changes nothing |
| `ButtonState.InitialIsIdle` | script.js:6-10 | the loaded button has class set {install}, animating false and no frame requested |
| `ButtonState.ClickMovesBetweenShapes` | script.js:96-113 | a click takes idle to downloading, leaves downloading unchanged, and takes completed to idle |
| `ButtonState.FrameMovesBetweenShapes` | script.js:70-94 | frames leave idle and completed unchanged; a downloading button stays downloading before 1800 have elapsed and becomes completed once they have |
| `ButtonState.StepPreservesWellFormed` | script.js:70-113 | every click or frame keeps the button in one of the three shapes |
| `ButtonState.RunPreservesWellFormed` | script.js:70-113 | every sequence of clicks and frames keeps the button in one of the three shapes |
| `ButtonState.ReachableStates` | script.js:6-113 | from the loaded button, any sequence of events gives class set {install}, {install, loading} or {open}; animating holds exactly when a frame is requested and exactly when "loading" is present; "open" and "loading" never coexist; the label is "Open" exactly when "open" is present |
| `ButtonState.SampleRun` | script.js:70-113 | a click, then frames at t0, t0 + 900 and t0 + 1800 (t0 not 0), draws rings at 0, 0.5 and 1 and leaves the button completed |
| `ButtonWidget.Widget.constructor` | script.js:6-10 | the loaded button: class "install", startTime unset, animating false, nothing requested or drawn |
| `ButtonWidget.Widget.Finish` | script.js:88-94 | the fields change exactly as AfterFinish says: animating false, classes minus "loading" and "install" plus "open", label "Open"; with no frame requested the button is then completed |
| `ButtonWidget.Widget.Animate` | script.js:70-85 | the fields change exactly as AfterAnimate says: start time fixed, ring drawn, then another frame requested or finish; on a download whose request was taken off, the button stays in one of the three shapes |
| `ButtonWidget.Widget.Frame` | script.js:70-85 | the fields change exactly as AfterFrame says; a frame stays requested exactly when one was requested and elapsed < 1800; the three shapes are preserved |
| `ButtonWidget.Widget.Click` | script.js:96-113 | the fields change exactly as AfterClick says, and the three shapes are preserved |

## Left out

- `drawLoader` (script.js:20-67) is not modelled beyond the arguments of its last call (`ring`). Its canvas calls, gradient, shadow and the sine-distorted arc loop are floating-point drawing with pixels as their only output.
- DOM lookups and event wiring (script.js:1-3, `addEventListener`, `querySelector`) are not modelled. The button and its label become fields of `Widget`, and the click handler becomes `Widget.Click`.
- `requestAnimationFrame` is modelled as one boolean. The host's callback queue, real timestamps and frame timing are not modelled: a frame is a `Frame(time)` call with any real time. In every reachable state at most one request is outstanding, so the boolean loses nothing there.
- Floating-point rounding is not modelled. Timestamps, `elapsed / duration` and `Math.pow(x, 2)` are exact reals. In doubles, when the start time is below the duration, the subtraction `time - startTime` can round an elapsed time just below 1800 up to 1800 and end the animation one frame early; from larger start times the subtraction is exact. NaN timestamps, which `!startTime` also treats as unset, do not exist over reals.
- The initial text of the label comes from the page markup, which is not part of this model. It is kept as the opaque value `Label.Markup`.
- `Initial` assumes the page markup gives the button neither the class "loading" nor "open". script.js:6 adds "install" to whatever class list the markup gives, and that markup is not part of this model.
