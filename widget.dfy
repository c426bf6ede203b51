/** The install button as the script runs it: module-level variables and the
    button element's class list and label, changed in place by the click
    handler, finish() and the animation-frame callback. Each method is proved
    to perform exactly the transition ButtonState specifies. The two events the
    host delivers, Click and Frame, keep the button in one of its three
    shapes from any of them; Animate and Finish do so only in the situation
    Frame calls them in, with the frame request already taken off. */
module ButtonWidget {
  import opened Easing
  import opened ButtonState

  class Widget {
    var classes: set<ClassName>
    var text: Label
    var animating: bool
    var startTime: Option<real>
    /** Whether animate is registered with requestAnimationFrame. */
    var framePending: bool
    /** The arguments of the last drawLoader call, if any. */
    var ring: Option<Ring>

    function Snapshot(): State
      reads this
    {
      State(classes, text, animating, startTime, framePending, ring)
    }

    ghost predicate Valid()
      reads this
    {
      WellFormed(Snapshot())
    }

    /** Loading the script: the button gets class "install", startTime is
        null and animating is false; the label keeps its markup text. */
    constructor ()
      ensures Snapshot() == Initial
      ensures Valid() && classes == {Install} && !animating && !framePending
    {
      classes := {Install};
      text := Markup;
      startTime := None;
      animating := false;
      framePending := false;
      ring := None;
      InitialIsIdle();
    }

    /** finish(): the completed state. */
    method Finish()
      modifies this
      ensures Snapshot() == AfterFinish(old(Snapshot()))
      ensures classes == old(classes) - {Loading, Install} + {Open}
      ensures !animating && text == OpenText
      ensures !old(framePending) ==> Valid()
    {
      animating := false;
      classes := classes - {Loading, Install};
      classes := classes + {Open};
      text := OpenText;
    }

    /** animate(time), run by the host for a requested frame. */
    method Animate(time: real)
      modifies this
      ensures Snapshot() == AfterAnimate(old(Snapshot()), time)
      ensures old(!framePending && IsDownloading(Snapshot().(framePending := true))) ==> Valid()
    {
      if Unset(startTime) {
        startTime := Some(time);
      }
      var elapsed := time - startTime.value;
      var progress := elapsed / Duration;
      if progress > 1.0 {
        progress := 1.0;
      }
      var eased := EaseInOut(progress);
      ring := Some(Ring(eased, elapsed));
      if progress < 1.0 {
        framePending := true;
      } else {
        Finish();
      }
    }

    /** The host delivers a frame: a pending request is taken off the queue
        and animate runs; without one no callback runs. */
    method Frame(time: real)
      modifies this
      ensures Snapshot() == AfterFrame(old(Snapshot()), time)
      ensures old(Valid()) ==> Valid()
      ensures framePending <==> old(framePending) && TickAt(old(startTime), time).elapsed < Duration
    {
      ghost var before := Snapshot();
      if framePending {
        framePending := false;
        Animate(time);
      }
      if WellFormed(before) {
        StepPreservesWellFormed(before, Event.Frame(time));
      }
    }

    /** The click handler: reset an open button, else ignore the click while
        animating, else start the animation and request its first frame. */
    method Click()
      modifies this
      ensures Snapshot() == AfterClick(old(Snapshot()))
      ensures old(Valid()) ==> Valid()
    {
      ghost var before := Snapshot();
      if Open in classes {
        classes := classes - {Open};
        classes := classes + {Install};
        text := InstallText;
      } else if !animating {
        animating := true;
        startTime := None;
        classes := classes + {Loading};
        framePending := true;
      }
      if WellFormed(before) {
        StepPreservesWellFormed(before, Event.Click);
      }
    }
  }
}
