/** The arithmetic of the progress animation: the ease-in-out curve and the
    clamp that turns elapsed frame time into a progress fraction. Browser
    timestamps and the script's numbers are doubles; here they are exact reals. */
module Easing {

  /** Length of one install animation, in timestamp units (milliseconds). */
  const Duration: real := 1800.0

  /** The accelerating half of the curve, used below the midpoint. */
  function EaseIn(t: real): real {
    2.0 * t * t
  }

  /** The decelerating half of the curve: one minus half the square of (-2t + 2). */
  function EaseOut(t: real): real {
    1.0 - (-2.0 * t + 2.0) * (-2.0 * t + 2.0) / 2.0
  }

  /** easeInOut: the first half below 0.5, the second half from 0.5 on. On
      the unit interval the result stays in the unit interval, below 0.5 on
      the first half and from 0.5 on on the second. */
  function EaseInOut(t: real): (r: real)
    ensures 0.0 <= t <= 1.0 ==> 0.0 <= r <= 1.0
    ensures 0.0 <= t < 0.5 ==> r < 0.5
    ensures 0.5 <= t <= 1.0 ==> 0.5 <= r
  {
    if t < 0.5 then
      (if 0.0 <= t then SquareMonotone(t, 0.5); EaseIn(t) else EaseIn(t))
    else
      (if t <= 1.0 then EaseOutRange(t); EaseOut(t) else EaseOut(t))
  }

  lemma EaseOutRange(t: real)
    requires 0.5 <= t <= 1.0
    ensures 0.5 <= EaseOut(t) <= 1.0
  {
    var u := -2.0 * t + 2.0;
    SquareMonotone(0.0, u);
    SquareMonotone(u, 1.0);
    assert 0.0 <= u * u <= 1.0;
    assert EaseOut(t) == 1.0 - u * u / 2.0;
  }

  /** elapsed / Duration, capped at 1. The cap is reached exactly when the
      whole duration has elapsed, and the fraction is negative exactly when
      the elapsed time is. */
  function Progress(elapsed: real): (p: real)
    ensures p <= 1.0
    ensures p == 1.0 <==> elapsed >= Duration
    ensures p < 1.0 <==> elapsed < Duration
    ensures 0.0 <= p <==> 0.0 <= elapsed
    ensures elapsed <= Duration ==> p * Duration == elapsed
  {
    var p := elapsed / Duration;
    if p > 1.0 then 1.0 else p
  }

  /** Both ends of the curve are fixed points. */
  lemma EaseEndpoints()
    ensures EaseInOut(0.0) == 0.0
    ensures EaseInOut(1.0) == 1.0
  {
  }

  /** The two halves meet at 0.5 with the value 0.5, so the curve has no
      jump where the branch switches. */
  lemma EaseBranchesMeet()
    ensures EaseIn(0.5) == 0.5 == EaseOut(0.5)
    ensures EaseInOut(0.5) == 0.5
  {
  }

  /** The curve is point-symmetric about (0.5, 0.5): easing out mirrors easing in. */
  lemma EaseSymmetric(t: real)
    ensures EaseInOut(1.0 - t) == 1.0 - EaseInOut(t)
  {
    if t < 0.5 {
      assert EaseOut(1.0 - t) == 1.0 - EaseIn(t);
    } else if t > 0.5 {
      assert EaseIn(1.0 - t) == 1.0 - EaseOut(t);
    }
  }

  /** Squares of non-negative reals keep their order, strictly when the bases differ. */
  lemma SquareMonotone(a: real, b: real)
    requires 0.0 <= a <= b
    ensures a * a <= b * b
    ensures a < b ==> a * a < b * b
  {
    assert b * b - a * a == (b - a) * (b + a);
    if a < b {
      assert 0.0 < b - a && 0.0 < b + a;
    }
  }

  /** On the unit interval the curve is non-decreasing, and in fact strictly increasing. */
  lemma EaseMonotone(s: real, t: real)
    requires 0.0 <= s <= t <= 1.0
    ensures EaseInOut(s) <= EaseInOut(t)
    ensures s < t ==> EaseInOut(s) < EaseInOut(t)
  {
    if t < 0.5 {
      SquareMonotone(s, t);
    } else if 0.5 <= s {
      SquareMonotone(-2.0 * t + 2.0, -2.0 * s + 2.0);
    }
  }

  /** A later elapsed time never gives a smaller progress fraction. */
  lemma ProgressMonotone(e1: real, e2: real)
    requires e1 <= e2
    ensures Progress(e1) <= Progress(e2)
  {
    assert e1 / Duration <= e2 / Duration;
  }

  /** With the start time fixed and frames no earlier than it, the eased value
      handed to the renderer never decreases from one frame to a later one and
      stays in the unit interval. */
  lemma EasedGrowsWithTime(start: real, t1: real, t2: real)
    requires start <= t1 <= t2
    ensures 0.0 <= EaseInOut(Progress(t1 - start)) <= EaseInOut(Progress(t2 - start)) <= 1.0
  {
    ProgressMonotone(t1 - start, t2 - start);
    EaseMonotone(Progress(t1 - start), Progress(t2 - start));
  }

  /** Frames at 0, 900 and 1800 time units after the start give progress 0,
      0.5 and 1 and eased values 0, 0.5 and 1. */
  lemma SampleFrames()
    ensures Progress(0.0) == 0.0 && EaseInOut(Progress(0.0)) == 0.0
    ensures Progress(900.0) == 0.5 && EaseInOut(Progress(900.0)) == 0.5
    ensures Progress(1800.0) == 1.0 && EaseInOut(Progress(1800.0)) == 1.0
  {
  }
}
