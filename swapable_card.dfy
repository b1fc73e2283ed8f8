/** The swipeable card built on React Native's classic `Animated` API
    (src/components/SwapableCard.tsx).

    The card owns four animated values: its horizontal and vertical offset, a
    fade factor and a scale factor. Each is modelled as its current number plus
    the animation most recently started on it (kind, target and parameters);
    the motion of an animation over time belongs to the library and is not
    modelled. A drag writes the offsets directly; a release either springs the
    card back or sends it off screen and fades it out, calling `onDismiss` once
    the fade has finished; `reset` brings the card back with its entry
    animation. */
module SwapableCard {
  import opened Wrappers
  import opened Screen
  import Arith
  import Interpolation
  import Visual

  /** `SWIPE_THRESHOLD`: a release farther than this from the centre dismisses the card. */
  function SwipeThreshold(w: Width): (t: real)
    ensures 0.0 < t < w / 2.0
  {
    w * 0.3
  }

  /** Release speeds above this (in the gesture state's units) fling the card with a decay. */
  const DecayVelocityCutoff: real := 0.5
  const DecayDeceleration: real := 0.997
  /** Duration in milliseconds of the timed slide off screen, of the fade out, of the fade in. */
  const ExitDuration: nat := 300
  const FadeOutDuration: nat := 300
  const FadeInDuration: nat := 600

  /** A spring either keeps the library's defaults or names friction and tension. */
  datatype SpringConfig = DefaultSpring | FrictionTension(friction: real, tension: real)

  /** An animation started on one value. */
  datatype Motion =
    | Spring(toValue: real, config: SpringConfig)
    | Timing(toValue: real, duration: nat)
    | Decay(velocity: real, deceleration: real)

  /** An `Animated.Value`: its current number and the animation running on it, if any. */
  datatype AnimatedValue = AnimatedValue(value: real, running: Option<Motion>)

  /** What a release of the drag decides. */
  datatype ReleaseDecision =
    | SpringBack
    | DismissByDecay(velocity: real, deceleration: real)
    | DismissByTiming(targetX: real, duration: nat)

  /** The spring that brings the card back after a short drag. */
  const SpringBackMotion: Motion := Spring(0.0, FrictionTension(5.0, 40.0))
  /** The fade that accompanies a dismissal; `onDismiss` waits for its end. */
  const FadeOutMotion: Motion := Timing(0.0, FadeOutDuration)
  /** The entry animation: fade in to full opacity, spring up to full size. */
  const FadeInMotion: Motion := Timing(1.0, FadeInDuration)
  const GrowMotion: Motion := Spring(1.0, FrictionTension(8.0, 40.0))

  /** The release rule: past the threshold the card leaves the screen, by a
      decay when the release is fast and by a timed slide otherwise; at or
      within the threshold it springs back. */
  function DecideRelease(dx: real, vx: real, w: Width): (d: ReleaseDecision)
    ensures d.SpringBack? <==> Abs(dx) <= SwipeThreshold(w)
    ensures d.DismissByDecay? <==> Abs(dx) > SwipeThreshold(w) && Abs(vx) > DecayVelocityCutoff
    ensures d.DismissByDecay? ==> d.velocity == vx && d.deceleration == DecayDeceleration
    ensures d.DismissByTiming? ==>
      d.duration == ExitDuration && Abs(d.targetX) == 1.5 * w && (d.targetX > 0.0 <==> dx > 0.0)
  {
    if Abs(dx) > SwipeThreshold(w) then
      var direction := if dx > 0.0 then 1.0 else -1.0;
      var targetX := direction * w * 1.5;
      if Abs(vx) > DecayVelocityCutoff then DismissByDecay(vx, DecayDeceleration)
      else DismissByTiming(targetX, ExitDuration)
    else
      SpringBack
  }

  /** Everything the card remembers: its four animated values, whether the
      running fade carries the `onDismiss` continuation, and how many times
      `onDismiss` has been called. */
  datatype CardState = CardState(
    translateX: AnimatedValue,
    translateY: AnimatedValue,
    fadeAnim: AnimatedValue,
    scaleAnim: AnimatedValue,
    dismissPending: bool,
    dismissCalls: nat)

  /** The continuation is only ever attached to the dismissal fade. */
  predicate Consistent(s: CardState) {
    s.dismissPending ==> s.fadeAnim.running == Some(FadeOutMotion)
  }

  /** The state right after mounting: offsets 0, fade 0, scale 0.5, with the entry animation started. */
  function Mounted(): (s: CardState)
    ensures Consistent(s) && !s.dismissPending && s.dismissCalls == 0
  {
    CardState(
      AnimatedValue(0.0, None),
      AnimatedValue(0.0, None),
      AnimatedValue(0.0, Some(FadeInMotion)),
      AnimatedValue(0.5, Some(GrowMotion)),
      false, 0)
  }

  /** A drag writes the gesture's offsets into the two translation values,
      which stops whatever animation was running on them. */
  function AfterDrag(s: CardState, dx: real, dy: real): (t: CardState)
    ensures t.translateX.value == dx && t.translateY.value == dy
    ensures t.translateX.running == None && t.translateY.running == None
    ensures t.fadeAnim == s.fadeAnim && t.scaleAnim == s.scaleAnim
    ensures t.dismissPending == s.dismissPending && t.dismissCalls == s.dismissCalls
  {
    s.(translateX := AnimatedValue(dx, None), translateY := AnimatedValue(dy, None))
  }

  /** The exit animation of the horizontal offset for a dismissal. */
  function ExitMotion(d: ReleaseDecision): Motion
    requires !d.SpringBack?
  {
    match d
    case DismissByDecay(v, dec) => Decay(v, dec)
    case DismissByTiming(x, dur) => Timing(x, dur)
  }

  /** The state after a release at offset dx with velocity vx. */
  function AfterRelease(s: CardState, dx: real, vx: real, w: Width): (t: CardState)
    ensures t.translateX.value == s.translateX.value && t.translateY.value == s.translateY.value
    ensures t.fadeAnim.value == s.fadeAnim.value && t.scaleAnim == s.scaleAnim
    ensures t.dismissCalls == s.dismissCalls
    ensures Abs(dx) <= SwipeThreshold(w) ==>
      t.translateX.running == Some(SpringBackMotion) && t.translateY.running == Some(SpringBackMotion) &&
      t.fadeAnim == s.fadeAnim && t.dismissPending == s.dismissPending
    ensures Abs(dx) > SwipeThreshold(w) ==>
      t.translateX.running == Some(ExitMotion(DecideRelease(dx, vx, w))) &&
      t.translateY == s.translateY && t.fadeAnim.running == Some(FadeOutMotion) && t.dismissPending
    ensures Consistent(s) ==> Consistent(t)
  {
    var d := DecideRelease(dx, vx, w);
    if d.SpringBack? then
      s.(translateX := s.translateX.(running := Some(SpringBackMotion)),
         translateY := s.translateY.(running := Some(SpringBackMotion)))
    else
      s.(translateX := s.translateX.(running := Some(ExitMotion(d))),
         fadeAnim := s.fadeAnim.(running := Some(FadeOutMotion)),
         dismissPending := true)
  }

  /** `reset`: the values are set back to their mount constants, the entry
      animation starts again, and a pending `onDismiss` is dropped together
      with the fade it was waiting for. */
  function AfterReset(s: CardState): (t: CardState)
    ensures t.translateX.value == 0.0 && t.translateY.value == 0.0
    ensures t.fadeAnim.value == 0.0 && t.scaleAnim.value == 0.5
    ensures t.translateX.running == Some(Spring(0.0, DefaultSpring)) && t.translateY.running == None
    ensures t.fadeAnim.running == Some(FadeInMotion) && t.scaleAnim.running == Some(GrowMotion)
    ensures !t.dismissPending && t.dismissCalls == s.dismissCalls
  {
    CardState(
      AnimatedValue(0.0, Some(Spring(0.0, DefaultSpring))),
      AnimatedValue(0.0, None),
      AnimatedValue(0.0, Some(FadeInMotion)),
      AnimatedValue(0.5, Some(GrowMotion)),
      false, s.dismissCalls)
  }

  /** The fade value is running a timed animation (every fade the card starts is one). */
  predicate FadeRunning(s: CardState) {
    s.fadeAnim.running.Some? && s.fadeAnim.running.value.Timing?
  }

  /** The running fade reaches its target. If it carried the dismissal
      continuation, `onDismiss` is called then, provided the card was given one. */
  function AfterFadeEnds(s: CardState, hasOnDismiss: bool): (t: CardState)
    ensures !t.dismissPending
    ensures t.dismissCalls == if s.dismissPending && hasOnDismiss && FadeRunning(s)
                              then s.dismissCalls + 1 else s.dismissCalls
    ensures Consistent(s) && s.dismissPending ==> t.fadeAnim == AnimatedValue(0.0, None)
    ensures t.translateX == s.translateX && t.translateY == s.translateY && t.scaleAnim == s.scaleAnim
  {
    match s.fadeAnim.running
    case Some(Timing(target, _)) =>
      s.(fadeAnim := AnimatedValue(target, None),
         dismissPending := false,
         dismissCalls := if s.dismissPending && hasOnDismiss then s.dismissCalls + 1 else s.dismissCalls)
    case _ => s.(dismissPending := false)
  }

  /** Reset brings the card to the same pose whatever happened before; so two resets are one. */
  lemma ResetIdempotent(s: CardState, s': CardState)
    requires s.dismissCalls == s'.dismissCalls
    ensures AfterReset(s) == AfterReset(s')
    ensures AfterReset(AfterReset(s)) == AfterReset(s)
  {
  }

  // ---------------------------------------------------------------------------
  // What the card draws

  /** Rotation in degrees, opacity and scale as functions of the horizontal offset. */
  function Rotation(x: real, w: Width): (r: real)
    ensures -15.0 <= r <= 15.0
  {
    var h := w / 2.0;
    Interpolation.Interpolate(x, [-h, 0.0, h], [-15.0, 0.0, 15.0])
  }

  function Opacity(x: real, w: Width): (r: real)
    ensures 0.5 <= r <= 1.0
  {
    var h := w / 2.0;
    Interpolation.Interpolate(x, [-h, 0.0, h], [0.5, 1.0, 0.5])
  }

  function Scale(x: real, w: Width): (r: real)
    ensures 0.95 <= r <= 1.0
  {
    var h := w / 2.0;
    Interpolation.Interpolate(x, [-h, 0.0, h], [0.95, 1.0, 0.95])
  }

  /** The values the card is drawn with. */
  datatype Style = Style(translateX: real, translateY: real, rotateDeg: real, scale: real, opacity: real)

  /** `Animated.multiply(opacity, fadeAnim)`: the interpolated opacity times
      the fade factor, between half and all of a non-negative fade. */
  function DrawnOpacity(x: real, w: Width, fade: real): (r: real)
    ensures r == Visual.Opacity(x, w) * fade
    ensures fade >= 0.0 ==> 0.5 * fade <= r <= fade
  {
    OpacityMatchesReference(x, w);
    Arith.ScaledFactor(Opacity(x, w), 0.5, fade);
    Opacity(x, w) * fade
  }

  /** `Animated.multiply(scale, scaleAnim)`: the interpolated scale times the
      scale factor, between 95% and all of a non-negative factor. */
  function DrawnScale(x: real, w: Width, factor: real): (r: real)
    ensures r == Visual.Scale(x, w) * factor
    ensures factor >= 0.0 ==> 0.95 * factor <= r <= factor
  {
    ScaleMatchesReference(x, w);
    Arith.ScaledFactor(Scale(x, w), 0.95, factor);
    Scale(x, w) * factor
  }

  /** The style the card is drawn with: the offset moves it, the vertical
      offset is damped to 30%, and rotation, scale and opacity come from the
      interpolations of the offset, the last two multiplied by the animated
      scale and fade factors. */
  function Render(s: CardState, w: Width): (st: Style)
    ensures st.translateX == s.translateX.value && st.translateY == 0.3 * s.translateY.value
    ensures st.rotateDeg == Visual.Rotation(s.translateX.value, w)
    ensures st.opacity == Visual.Opacity(s.translateX.value, w) * s.fadeAnim.value
    ensures st.scale == Visual.Scale(s.translateX.value, w) * s.scaleAnim.value
  {
    var x := s.translateX.value;
    RotationMatchesReference(x, w);
    Style(x, 0.3 * s.translateY.value, Rotation(x, w),
      DrawnScale(x, w, s.scaleAnim.value), DrawnOpacity(x, w, s.fadeAnim.value))
  }

  /** What the card draws never exceeds what its animated values allow: the
      vertical offset is no larger than the drag, the tilt stays within 15
      degrees, the opacity between half and all of the fade factor, the scale
      between 95% and all of the scale factor. */
  lemma RenderBounds(s: CardState, w: Width)
    ensures Abs(Render(s, w).translateY) <= Abs(s.translateY.value)
    ensures -15.0 <= Render(s, w).rotateDeg <= 15.0
    ensures s.fadeAnim.value >= 0.0 ==> 0.5 * s.fadeAnim.value <= Render(s, w).opacity <= s.fadeAnim.value
    ensures s.scaleAnim.value >= 0.0 ==> 0.95 * s.scaleAnim.value <= Render(s, w).scale <= s.scaleAnim.value
  {
    Visual.Bounds(s.translateX.value, w);
    Arith.Damped(s.translateY.value, 0.3);
  }

  /** Each interpolation computes exactly the reference tilt, opacity or scale. */
  lemma RotationMatchesReference(x: real, w: Width)
    ensures Rotation(x, w) == Visual.Rotation(x, w)
  {
    Interpolation.CentredKnots(x, w, -15.0, 0.0, 15.0);
    Visual.Inside(x, w);
    Visual.Saturation(x, w);
  }

  lemma OpacityMatchesReference(x: real, w: Width)
    ensures Opacity(x, w) == Visual.Opacity(x, w)
  {
    Interpolation.CentredKnots(x, w, 0.5, 1.0, 0.5);
    Visual.Inside(x, w);
    Visual.Saturation(x, w);
    Arith.Negate(x, w);
  }

  lemma ScaleMatchesReference(x: real, w: Width)
    ensures Scale(x, w) == Visual.Scale(x, w)
  {
    Interpolation.CentredKnots(x, w, 0.95, 1.0, 0.95);
    Visual.Inside(x, w);
    Visual.Saturation(x, w);
    Arith.Negate(x, w);
  }

  /** At the centre the card is upright, opaque and full size; from half a
      screen width on the three values saturate; rotation is odd in the
      offset, opacity and scale are even. */
  lemma {:induction false} InterpolationShape(x: real, w: Width)
    ensures Rotation(0.0, w) == 0.0 && Opacity(0.0, w) == 1.0 && Scale(0.0, w) == 1.0
    ensures Abs(x) >= w / 2.0 ==>
      Rotation(x, w) == (if x > 0.0 then 15.0 else -15.0) && Opacity(x, w) == 0.5 && Scale(x, w) == 0.95
    ensures Rotation(-x, w) == -Rotation(x, w)
    ensures Opacity(-x, w) == Opacity(x, w) && Scale(-x, w) == Scale(x, w)
  {
    RotationMatchesReference(x, w);
    RotationMatchesReference(-x, w);
    OpacityMatchesReference(x, w);
    OpacityMatchesReference(-x, w);
    ScaleMatchesReference(x, w);
    ScaleMatchesReference(-x, w);
    Visual.Symmetry(x, w);
  }

  /** Right after a reset the card is drawn centred and upright, at half
      size and fully transparent; the entry animation takes it from there. */
  lemma ResetRendersEntryPose(s: CardState, w: Width)
    ensures Render(AfterReset(s), w) == Style(0.0, 0.0, 0.0, 0.5, 0.0)
  {
    InterpolationShape(0.0, w);
  }

  // ---------------------------------------------------------------------------
  // Sequences of events and the `onDismiss` callback

  /** What can happen to a mounted card. */
  datatype Event =
    | Dragged(dx: real, dy: real)
    | Released(dx: real, vx: real)
    | ResetRequested
    | FadeCompleted

  function Step(s: CardState, e: Event, w: Width, hasOnDismiss: bool): CardState {
    match e
    case Dragged(dx, dy) => AfterDrag(s, dx, dy)
    case Released(dx, vx) => AfterRelease(s, dx, vx, w)
    case ResetRequested => AfterReset(s)
    case FadeCompleted => AfterFadeEnds(s, hasOnDismiss)
  }

  function Run(s: CardState, events: seq<Event>, w: Width, hasOnDismiss: bool): CardState
    decreases |events|
  {
    if events == [] then s else Run(Step(s, events[0], w, hasOnDismiss), events[1..], w, hasOnDismiss)
  }

  /** How many releases in the sequence went past the threshold. */
  function Dismissals(events: seq<Event>, w: Width): nat
    decreases |events|
  {
    if events == [] then 0
    else
      var here := if events[0].Released? && Abs(events[0].dx) > SwipeThreshold(w) then 1 else 0;
      here + Dismissals(events[1..], w)
  }

  function PendingCount(s: CardState): nat {
    if s.dismissPending then 1 else 0
  }

  /** `onDismiss` is never called more often than the card was dismissed:
      calls made plus the one still waiting for its fade never exceed the
      dismissals; and without an `onDismiss` nothing is ever called. */
  lemma {:induction false} OnDismissAtMostOncePerDismissal(
    s: CardState, events: seq<Event>, w: Width, hasOnDismiss: bool)
    ensures var t := Run(s, events, w, hasOnDismiss);
      t.dismissCalls + PendingCount(t) <= s.dismissCalls + PendingCount(s) + Dismissals(events, w)
    ensures !hasOnDismiss ==> Run(s, events, w, hasOnDismiss).dismissCalls == s.dismissCalls
    decreases |events|
  {
    if events != [] {
      var s1 := Step(s, events[0], w, hasOnDismiss);
      OnDismissAtMostOncePerDismissal(s1, events[1..], w, hasOnDismiss);
    }
  }

  /** A dismissal calls `onDismiss` not at the release but when the fade
      ends, exactly once, and only if the card was given an `onDismiss`. */
  lemma DismissCallsOnDismissAfterFade(s: CardState, dx: real, vx: real, w: Width, hasOnDismiss: bool)
    requires Abs(dx) > SwipeThreshold(w)
    ensures AfterRelease(s, dx, vx, w).dismissCalls == s.dismissCalls
    ensures var t := AfterFadeEnds(AfterRelease(s, dx, vx, w), hasOnDismiss);
      t.dismissCalls == s.dismissCalls + (if hasOnDismiss then 1 else 0) &&
      t.fadeAnim == AnimatedValue(0.0, None) &&
      AfterFadeEnds(t, hasOnDismiss).dismissCalls == t.dismissCalls
  {
  }

  /** Worked cases on a 400-point-wide screen (threshold 120): a drag of 100
      springs back; 150 at low speed slides to 600 in 300 ms; -150 at high
      speed is flung with its own velocity; and a slow drag to -250 slides to
      -600 and calls `onDismiss` once its fade has finished. */
  lemma WorkedReleases(s: CardState)
    ensures DecideRelease(100.0, 0.0, 400.0) == SpringBack
    ensures DecideRelease(150.0, 0.1, 400.0) == DismissByTiming(600.0, 300)
    ensures DecideRelease(-150.0, -2.0, 400.0) == DismissByDecay(-2.0, 0.997)
    ensures var t := Run(s, [Dragged(-250.0, 0.0), Released(-250.0, 0.1)], 400.0, true);
      t.translateX.running == Some(Timing(-600.0, 300)) && t.dismissCalls == s.dismissCalls &&
      Run(t, [FadeCompleted], 400.0, true).dismissCalls == s.dismissCalls + 1
  {
  }

  // ---------------------------------------------------------------------------
  // The component instance

  class Card {
    const width: Width
    const hasOnDismiss: bool
    var translateX: AnimatedValue
    var translateY: AnimatedValue
    var fadeAnim: AnimatedValue
    var scaleAnim: AnimatedValue
    var dismissPending: bool
    var dismissCalls: nat

    function State(): CardState
      reads this
    {
      CardState(translateX, translateY, fadeAnim, scaleAnim, dismissPending, dismissCalls)
    }

    ghost predicate Valid()
      reads this
    {
      Consistent(State())
    }

    /** Mounting: the values start at 0, 0, 0 and 0.5 and the entry animation runs. */
    constructor (width: Width, hasOnDismiss: bool)
      ensures this.width == width && this.hasOnDismiss == hasOnDismiss
      ensures Valid() && State() == Mounted()
    {
      this.width := width;
      this.hasOnDismiss := hasOnDismiss;
      translateX := AnimatedValue(0.0, None);
      translateY := AnimatedValue(0.0, None);
      fadeAnim := AnimatedValue(0.0, Some(FadeInMotion));
      scaleAnim := AnimatedValue(0.5, Some(GrowMotion));
      dismissPending := false;
      dismissCalls := 0;
    }

    /** `onPanResponderMove`: the gesture's offsets are written into the translation values. */
    method Move(dx: real, dy: real)
      requires Valid()
      modifies this
      ensures Valid() && State() == AfterDrag(old(State()), dx, dy)
    {
      translateX := AnimatedValue(dx, None);
      translateY := AnimatedValue(dy, None);
    }

    /** `onPanResponderRelease`. */
    method Release(dx: real, vx: real)
      requires Valid()
      modifies this
      ensures Valid() && State() == AfterRelease(old(State()), dx, vx, width)
    {
      if Abs(dx) > SwipeThreshold(width) {
        var direction := if dx > 0.0 then 1.0 else -1.0;
        var targetX := direction * width * 1.5;
        if Abs(vx) > DecayVelocityCutoff {
          translateX := translateX.(running := Some(Decay(vx, DecayDeceleration)));
        } else {
          translateX := translateX.(running := Some(Timing(targetX, ExitDuration)));
        }
        fadeAnim := fadeAnim.(running := Some(Timing(0.0, FadeOutDuration)));
        dismissPending := true;
      } else {
        translateX := translateX.(running := Some(Spring(0.0, FrictionTension(5.0, 40.0))));
        translateY := translateY.(running := Some(Spring(0.0, FrictionTension(5.0, 40.0))));
      }
    }

    /** `reset`: `setValue` on all four values, then the entry animation. */
    method Reset()
      requires Valid()
      modifies this
      ensures Valid() && State() == AfterReset(old(State()))
    {
      translateX := AnimatedValue(0.0, None);
      translateY := AnimatedValue(0.0, None);
      fadeAnim := AnimatedValue(0.0, None);
      scaleAnim := AnimatedValue(0.5, None);
      dismissPending := false;
      translateX := translateX.(running := Some(Spring(0.0, DefaultSpring)));
      fadeAnim := fadeAnim.(running := Some(Timing(1.0, FadeInDuration)));
      scaleAnim := scaleAnim.(running := Some(Spring(1.0, FrictionTension(8.0, 40.0))));
    }

    /** The running fade finishes; its completion callback calls `onDismiss` if there is one. */
    method SettleFade()
      requires Valid()
      modifies this
      ensures Valid() && State() == AfterFadeEnds(old(State()), hasOnDismiss)
    {
      if fadeAnim.running.Some? && fadeAnim.running.value.Timing? {
        fadeAnim := AnimatedValue(fadeAnim.running.value.toValue, None);
        if dismissPending && hasOnDismiss {
          dismissCalls := dismissCalls + 1;
        }
      }
      dismissPending := false;
    }
  }
}
