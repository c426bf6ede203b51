/** The install button's state as a value, and the effect of each event on it:
    the click handler, finish(), and the frame callback animate(). The class in
    ButtonWidget performs the same changes in place; the functions here are its
    specification and the lemmas are what the script's behaviour guarantees. */
module ButtonState {
  import opened Easing

  datatype Option<T> = None | Some(value: T)

  /** The CSS classes the script toggles on the button. */
  datatype ClassName = Install | Loading | Open

  /** The text of the button's label: whatever the page markup put there until
      the script first writes it, then "Install" or "Open". */
  datatype Label = Markup | InstallText | OpenText

  /** The arguments of the last drawLoader call: the eased progress and the
      elapsed time that drives the wave. drawLoader clears the canvas before
      drawing, so the canvas shows a function of this pair alone. */
  datatype Ring = Ring(progress: real, time: real)

  /** The module-level variables, the button's class list and label, whether
      an animation frame is requested, and what the canvas shows. */
  datatype State = State(
    classes: set<ClassName>,
    text: Label,
    animating: bool,
    startTime: Option<real>,
    framePending: bool,
    ring: Option<Ring>)

  /** After the script has loaded: class "install", no animation, no start
      time, nothing requested and nothing drawn. */
  const Initial: State := State({Install}, Markup, false, None, false, None)

  /** `!startTime`: null counts as unset, and so does a start time of 0;
      every other recorded time counts as set. */
  predicate Unset(startTime: Option<real>) {
    startTime.None? || startTime.value == 0.0
  }

  /** What one run of animate computes before it decides how to go on. */
  datatype Tick = Tick(start: real, elapsed: real, progress: real, eased: real)

  /** The start is the frame's own time when none was recorded, and the
      recorded one otherwise; progress is below 1 exactly while the duration
      has not elapsed, and the eased value is in the unit interval for frames
      no earlier than the start. */
  function TickAt(startTime: Option<real>, time: real): (k: Tick)
    ensures k.start == time || Some(k.start) == startTime
    ensures Unset(startTime) ==> k.elapsed == 0.0 && k.progress == 0.0 && k.eased == 0.0
    ensures k.start + k.elapsed == time
    ensures k.progress <= 1.0 && (k.progress < 1.0 <==> k.elapsed < Duration)
    ensures 0.0 <= k.elapsed ==> 0.0 <= k.progress && 0.0 <= k.eased <= 1.0
  {
    var start := if Unset(startTime) then time else startTime.value;
    var elapsed := time - start;
    var progress := Progress(elapsed);
    Tick(start, elapsed, progress, EaseInOut(progress))
  }

  /** Removing "loading" and "install" and adding "open" leaves "open" alone. */
  lemma OnlyOpenRemains(c: set<ClassName>)
    ensures c - {Loading, Install} + {Open} == {Open}
  {
    forall x: ClassName
      ensures x in c - {Loading, Install} + {Open} <==> x in {Open}
    {
      match x
      case Install =>
      case Loading =>
      case Open =>
    }
  }

  /** finish(): stop animating, swap "loading" and "install" for "open",
      label "Open". The result is the completed shape exactly when no frame is
      still requested, which holds when animate calls it. */
  function AfterFinish(s: State): (r: State)
    ensures r.classes == {Open}
    ensures IsCompleted(r) <==> !s.framePending
  {
    OnlyOpenRemains(s.classes);
    s.(animating := false, classes := s.classes - {Loading, Install} + {Open}, text := OpenText)
  }

  /** animate(time): fix the start time, draw, then request another frame
      while progress is below 1 and finish otherwise. */
  function AfterAnimate(s: State, time: real): (r: State)
    ensures r.startTime.Some? && r.ring.Some?
    ensures r.framePending <==> s.framePending || TickAt(s.startTime, time).elapsed < Duration
    ensures TickAt(s.startTime, time).elapsed >= Duration ==> r.classes == {Open} && !r.animating && r.text == OpenText
    ensures !s.framePending && IsDownloading(s.(framePending := true)) ==> WellFormed(r)
  {
    var k := TickAt(s.startTime, time);
    var drawn := s.(startTime := Some(k.start), ring := Some(Ring(k.eased, k.elapsed)));
    if k.progress < 1.0 then drawn.(framePending := true) else AfterFinish(drawn)
  }

  /** The host delivers a frame: the pending request is consumed and animate
      runs; with nothing requested no callback runs and nothing changes. */
  function AfterFrame(s: State, time: real): (r: State)
    ensures r.framePending ==> s.framePending
    ensures WellFormed(s) ==> WellFormed(r)
  {
    if s.framePending then AfterAnimate(s.(framePending := false), time) else s
  }

  /** The click handler: the "open" check comes first, then the re-entrancy guard. */
  function AfterClick(s: State): (r: State)
    ensures r == s <==> Open !in s.classes && s.animating
    ensures WellFormed(s) ==> WellFormed(r)
  {
    if Open in s.classes then
      s.(classes := s.classes - {Open} + {Install}, text := InstallText)
    else if s.animating then
      s
    else
      s.(animating := true, startTime := None, classes := s.classes + {Loading}, framePending := true)
  }

  datatype Event = Click | Frame(time: real)

  function Step(s: State, e: Event): State {
    match e
    case Click => AfterClick(s)
    case Frame(time) => AfterFrame(s, time)
  }

  /** The state after a sequence of clicks and frames. */
  function Run(s: State, events: seq<Event>): State
    decreases |events|
  {
    if events == [] then s else Run(Step(s, events[0]), events[1..])
  }

  // The three shapes the button can take.

  predicate IsIdle(s: State) {
    s.classes == {Install} && !s.animating && !s.framePending && s.text != OpenText
  }

  predicate IsDownloading(s: State) {
    s.classes == {Install, Loading} && s.animating && s.framePending && s.text != OpenText
  }

  predicate IsCompleted(s: State) {
    s.classes == {Open} && !s.animating && !s.framePending && s.text == OpenText
  }

  predicate WellFormed(s: State) {
    IsIdle(s) || IsDownloading(s) || IsCompleted(s)
  }

  // Single transitions.

  /** finish() leaves exactly the class "open", whatever the classes were,
      clears animating and shows "Open"; the timing fields are untouched. */
  lemma FinishShowsOpen(s: State)
    ensures AfterFinish(s).classes == {Open}
    ensures Open in AfterFinish(s).classes && Loading !in AfterFinish(s).classes && Install !in AfterFinish(s).classes
    ensures !AfterFinish(s).animating && AfterFinish(s).text == OpenText
    ensures AfterFinish(s).startTime == s.startTime && AfterFinish(s).framePending == s.framePending
  {
  }

  /** While "open" is present a click resets to "install" and label "Install",
      and touches neither animating nor the start time nor the frame request. */
  lemma ClickWhenOpen(s: State)
    requires Open in s.classes
    ensures var r := AfterClick(s);
      Open !in r.classes && Install in r.classes && r.classes == s.classes - {Open} + {Install} &&
      r.text == InstallText && r.animating == s.animating && r.startTime == s.startTime &&
      r.framePending == s.framePending && r.ring == s.ring
  {
  }

  /** The open check comes before the guard: a click on an open button
      resets it to "install" even when animating is set, and leaves animating
      set. */
  lemma OpenCheckPrecedesGuard(s: State)
    requires Open in s.classes && s.animating
    ensures var r := AfterClick(s);
      r != s && Open !in r.classes && Install in r.classes && r.text == InstallText && r.animating
  {
  }

  /** The re-entrancy guard: without "open", a click while animating changes nothing. */
  lemma ClickWhileAnimating(s: State)
    requires Open !in s.classes && s.animating
    ensures AfterClick(s) == s
  {
  }

  /** Otherwise a click starts a run: animating, start time reset, "loading"
      added beside the classes already there, one frame requested, label kept. */
  lemma ClickStarts(s: State)
    requires Open !in s.classes && !s.animating
    ensures var r := AfterClick(s);
      r.animating && r.startTime == None && r.classes == s.classes + {Loading} &&
      r.framePending && r.text == s.text && r.ring == s.ring
  {
  }

  /** The first frame after a start takes its own time as the start time, so
      elapsed time, progress and eased progress are all 0. */
  lemma FirstFrameStartsClock(startTime: Option<real>, time: real)
    requires Unset(startTime)
    ensures var k := TickAt(startTime, time);
      k.start == time && k.elapsed == 0.0 && k.progress == 0.0 && k.eased == 0.0
  {
    EaseEndpoints();
  }

  /** A start time of 0 is read as unset: the next frame restarts the clock at
      its own time. Any other recorded start time is kept. */
  lemma ZeroStartTimeRestarts(start: real, time: real)
    ensures TickAt(Some(start), time).start == if start == 0.0 then time else start
  {
  }

  /** A frame requests another frame exactly when the elapsed time is below
      the duration; otherwise it finishes and requests none. Either way the
      canvas shows the eased progress, which lies in the unit interval when
      frames do not precede the start. */
  lemma FrameContinuesIffBeforeDuration(s: State, time: real)
    requires s.framePending
    ensures var k := TickAt(s.startTime, time);
      var r := AfterFrame(s, time);
      r.startTime == Some(k.start) &&
      r.ring == Some(Ring(k.eased, k.elapsed)) &&
      (r.framePending <==> k.elapsed < Duration) &&
      (k.elapsed < Duration ==> r.classes == s.classes && r.animating == s.animating && r.text == s.text) &&
      (k.elapsed >= Duration ==> r == AfterFinish(s.(framePending := false, startTime := r.startTime, ring := r.ring))) &&
      (0.0 <= k.elapsed ==> 0.0 <= k.eased <= 1.0)
  {
  }

  /** A frame that was not requested runs nothing. */
  lemma UnrequestedFrameIgnored(s: State, time: real)
    requires !s.framePending
    ensures AfterFrame(s, time) == s
  {
  }

  // The three shapes and how events move between them.

  lemma InitialIsIdle()
    ensures IsIdle(Initial)
  {
  }

  /** Idle --click--> downloading, downloading --click--> unchanged,
      completed --click--> idle. */
  lemma ClickMovesBetweenShapes(s: State)
    requires WellFormed(s)
    ensures IsIdle(s) ==> IsDownloading(AfterClick(s))
    ensures IsDownloading(s) ==> AfterClick(s) == s
    ensures IsCompleted(s) ==> IsIdle(AfterClick(s))
  {
    if IsCompleted(s) {
      assert AfterClick(s).classes == {Install};
    }
  }

  /** Idle and completed ignore frames; downloading stays downloading before
      the duration has elapsed and becomes completed once it has. */
  lemma FrameMovesBetweenShapes(s: State, time: real)
    requires WellFormed(s)
    ensures !IsDownloading(s) ==> AfterFrame(s, time) == s
    ensures IsDownloading(s) ==>
      if TickAt(s.startTime, time).elapsed < Duration
      then IsDownloading(AfterFrame(s, time))
      else IsCompleted(AfterFrame(s, time))
  {
    if IsDownloading(s) && TickAt(s.startTime, time).elapsed >= Duration {
      assert AfterFrame(s, time).classes == {Install, Loading} - {Loading, Install} + {Open};
    }
  }

  lemma StepPreservesWellFormed(s: State, e: Event)
    requires WellFormed(s)
    ensures WellFormed(Step(s, e))
  {
    match e
    case Click => ClickMovesBetweenShapes(s);
    case Frame(time) => FrameMovesBetweenShapes(s, time);
  }

  /** Two successive frames of one download, delivered in time order and no
      earlier than a recorded start time, draw a ring that does not shrink:
      the eased progress shown by the second is at least that of the first,
      and both lie in the unit interval. */
  lemma RingGrowsAcrossFrames(s: State, t1: real, t2: real)
    requires IsDownloading(s)
    requires !Unset(s.startTime) ==> s.startTime.value <= t1
    requires t1 <= t2
    requires IsDownloading(AfterFrame(s, t1))
    ensures var s1 := AfterFrame(s, t1);
      var s2 := AfterFrame(s1, t2);
      s1.ring.Some? && s2.ring.Some? &&
      0.0 <= s1.ring.value.progress <= s2.ring.value.progress <= 1.0
  {
    var s1 := AfterFrame(s, t1);
    var k1 := TickAt(s.startTime, t1);
    assert s1.startTime == Some(k1.start);
    if k1.start == 0.0 {
      assert k1.elapsed == 0.0;
    } else {
      EasedGrowsWithTime(k1.start, t1, t2);
    }
  }

  lemma {:induction false} RunPreservesWellFormed(s: State, events: seq<Event>)
    requires WellFormed(s)
    ensures WellFormed(Run(s, events))
    decreases |events|
  {
    if events != [] {
      StepPreservesWellFormed(s, events[0]);
      RunPreservesWellFormed(Step(s, events[0]), events[1..]);
    }
  }

  /** From the initial button, every sequence of clicks and frames ends in one
      of three class sets ({install}, {install, loading}, {open}); animating
      holds exactly when a frame is requested, exactly when "loading" is
      present, and "open" and "loading" are never present together. */
  lemma ReachableStates(events: seq<Event>)
    ensures var r := Run(Initial, events);
      (r.classes == {Install} || r.classes == {Install, Loading} || r.classes == {Open}) &&
      (r.animating <==> r.framePending) &&
      (r.animating <==> Loading in r.classes) &&
      !(Open in r.classes && Loading in r.classes) &&
      (r.text == OpenText <==> Open in r.classes)
  {
    InitialIsIdle();
    RunPreservesWellFormed(Initial, events);
  }

  /** A run from the initial button: a click, then frames 0, 900 and 1800
      time units after a first frame at a non-zero time. The canvas shows 0,
      0.5 and 1, and the last frame leaves the button completed. */
  lemma SampleRun(t0: real)
    requires t0 != 0.0
    ensures var s1 := Run(Initial, [Click, Frame(t0)]);
      IsDownloading(s1) && s1.startTime == Some(t0) && s1.ring == Some(Ring(0.0, 0.0))
    ensures var s2 := Run(Initial, [Click, Frame(t0), Frame(t0 + 900.0)]);
      IsDownloading(s2) && s2.ring == Some(Ring(0.5, 900.0))
    ensures var s3 := Run(Initial, [Click, Frame(t0), Frame(t0 + 900.0), Frame(t0 + 1800.0)]);
      IsCompleted(s3) && s3.ring == Some(Ring(1.0, 1800.0))
  {
    SampleFrames();
    var s0 := AfterClick(Initial);
    assert s0.classes == {Install, Loading};
    var s1 := AfterFrame(s0, t0);
    var s2 := AfterFrame(s1, t0 + 900.0);
    var s3 := AfterFrame(s2, t0 + 1800.0);
    var e1, e2, e3 := Frame(t0), Frame(t0 + 900.0), Frame(t0 + 1800.0);
    assert Run(s2, [e3]) == s3 by { assert Run(s3, []) == s3; }
    assert Run(s1, [e2]) == s2 by { assert Run(s2, []) == s2; }
    assert Run(s1, [e2, e3]) == s3 by { assert [e2, e3][1..] == [e3]; }
    assert Run(s0, [e1]) == s1 by { assert Run(s1, []) == s1; }
    assert Run(s0, [e1, e2]) == s2 by { assert [e1, e2][1..] == [e2]; }
    assert Run(s0, [e1, e2, e3]) == s3 by { assert [e1, e2, e3][1..] == [e2, e3]; }
    assert [Click, e1][1..] == [e1];
    assert [Click, e1, e2][1..] == [e1, e2];
    assert [Click, e1, e2, e3][1..] == [e1, e2, e3];
    assert s3.classes == {Install, Loading} - {Loading, Install} + {Open};
  }
}
