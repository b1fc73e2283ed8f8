/** The Reanimated version of the card's gesture logic
    (src/hooks/useGestureHelpers.ts).

    The hook owns three animated shared values (horizontal and vertical
    offset, a scale factor) and a shared flag saying whether the card was
    dismissed. Assigning an animation to a shared value is modelled as
    recording that animation (kind, target, parameters) as the value's
    current animation; the motion itself belongs to the library. Unlike the
    classic card, a dismissal calls the callback at once and there is no fade. */
module GestureHelpers {
  import opened Wrappers
  import opened Screen
  import Arith
  import Interpolation
  import Visual

  /** `SWIPE_THRESHOLD`: a gesture ending farther than this from the centre dismisses the card. */
  function SwipeThreshold(w: Width): (t: real)
    ensures 0.0 < t < w / 2.0
  {
    w * 0.3
  }

  /** Gesture end speeds above this (points per second) fling the card with a decay. */
  const DecayVelocityCutoff: real := 500.0
  /** Duration in milliseconds of the timed slide off screen. */
  const ExitDuration: nat := 300
  /** The spring every `withSpring` of the hook uses. */
  const SpringDamping: real := 15.0
  const SpringStiffness: real := 150.0

  /** An animation assigned to a shared value. A spring may be seeded with an initial velocity. */
  datatype Motion =
    | Spring(toValue: real, damping: real, stiffness: real, initialVelocity: Option<real>)
    | Timing(toValue: real, duration: nat)
    | Decay(velocity: real, clampLo: real, clampHi: real)

  /** A numeric shared value: its current number and the animation assigned to it, if any. */
  datatype SharedValue = SharedValue(value: real, animation: Option<Motion>)

  /** What the end of a gesture decides. */
  datatype GestureDecision =
    | SpringBack
    | DismissByDecay(velocity: real, clampLo: real, clampHi: real)
    | DismissByTiming(targetX: real, duration: nat)

  /** The release rule of `handleGestureEnd`: past the threshold the card
      leaves the screen, by a decay clamped to the dismissal side when the
      gesture is fast and by a timed slide otherwise; at or within the
      threshold it springs back. */
  function DecideGestureEnd(translationX: real, velocityX: real, w: Width): (d: GestureDecision)
    ensures d.SpringBack? <==> Abs(translationX) <= SwipeThreshold(w)
    ensures d.DismissByDecay? <==>
      Abs(translationX) > SwipeThreshold(w) && Abs(velocityX) > DecayVelocityCutoff
    ensures d.DismissByDecay? ==>
      d.velocity == velocityX && d.clampHi - d.clampLo == 2.0 * w &&
      (if translationX > 0.0 then d.clampLo == 0.0 else d.clampHi == 0.0)
    ensures d.DismissByTiming? ==>
      d.duration == ExitDuration && Abs(d.targetX) == 1.5 * w &&
      (d.targetX > 0.0 <==> translationX > 0.0)
  {
    if Abs(translationX) > SwipeThreshold(w) then
      var direction := if translationX > 0.0 then 1.0 else -1.0;
      var targetX := direction * w * 1.5;
      if Abs(velocityX) > DecayVelocityCutoff then
        DismissByDecay(velocityX,
                       if direction > 0.0 then 0.0 else -(w as real) * 2.0,
                       if direction > 0.0 then w * 2.0 else 0.0)
      else
        DismissByTiming(targetX, ExitDuration)
    else
      SpringBack
  }

  /** A fling never brings the card back across the centre: every position its
      clamp allows lies on the side the card was dismissed to, and so does the
      off-screen target the slower slide would have used. */
  lemma DecayStaysOnDismissalSide(translationX: real, velocityX: real, w: Width, p: real)
    requires Abs(translationX) > SwipeThreshold(w) && Abs(velocityX) > DecayVelocityCutoff
    ensures var d := DecideGestureEnd(translationX, velocityX, w);
      d.clampLo <= p <= d.clampHi ==>
        (translationX > 0.0 ==> p >= 0.0) && (translationX < 0.0 ==> p <= 0.0)
    ensures var d := DecideGestureEnd(translationX, velocityX, w);
      var target := if translationX > 0.0 then 1.5 * w else -1.5 * w;
      d.clampLo <= target <= d.clampHi
  {
  }

  /** The hook's state: the three shared values, the dismissed flag, and how
      many times the dismiss callback has been called. */
  datatype GestureState = GestureState(
    translateX: SharedValue,
    translateY: SharedValue,
    cardScale: SharedValue,
    isCardDismissed: bool,
    callbackCalls: nat)

  /** The state the hook starts in: offsets 0, scale 1, not dismissed. */
  function Initial(): (s: GestureState)
    ensures !s.isCardDismissed && s.callbackCalls == 0 && s.cardScale.value == 1.0
  {
    GestureState(SharedValue(0.0, None), SharedValue(0.0, None), SharedValue(1.0, None), false, 0)
  }

  /** The animation given to the horizontal offset for a dismissal. */
  function ExitMotion(d: GestureDecision): Motion
    requires !d.SpringBack?
  {
    match d
    case DismissByDecay(v, lo, hi) => Decay(v, lo, hi)
    case DismissByTiming(x, dur) => Timing(x, dur)
  }

  /** `handleGestureEnd(translationX, velocityX)`. */
  function AfterGestureEnd(s: GestureState, translationX: real, velocityX: real, w: Width, hasCallback: bool)
    : (t: GestureState)
    ensures t.translateX.value == s.translateX.value && t.translateY.value == s.translateY.value
    ensures t.cardScale == s.cardScale
    ensures Abs(translationX) <= SwipeThreshold(w) ==>
      t.translateX.animation == Some(Spring(0.0, SpringDamping, SpringStiffness, Some(velocityX))) &&
      t.translateY.animation == Some(Spring(0.0, SpringDamping, SpringStiffness, None)) &&
      t.isCardDismissed == s.isCardDismissed && t.callbackCalls == s.callbackCalls
    ensures Abs(translationX) > SwipeThreshold(w) ==>
      t.translateX.animation == Some(ExitMotion(DecideGestureEnd(translationX, velocityX, w))) &&
      t.translateY == s.translateY && t.isCardDismissed &&
      t.callbackCalls == s.callbackCalls + (if hasCallback then 1 else 0)
  {
    var d := DecideGestureEnd(translationX, velocityX, w);
    if d.SpringBack? then
      s.(translateX := s.translateX.(animation := Some(Spring(0.0, SpringDamping, SpringStiffness, Some(velocityX)))),
         translateY := s.translateY.(animation := Some(Spring(0.0, SpringDamping, SpringStiffness, None))))
    else
      s.(translateX := s.translateX.(animation := Some(ExitMotion(d))),
         isCardDismissed := true,
         callbackCalls := if hasCallback then s.callbackCalls + 1 else s.callbackCalls)
  }

  /** `resetSharedValues`: springs offsets to 0 and the scale to 1 and clears the flag. */
  function AfterReset(s: GestureState): (t: GestureState)
    ensures t.translateX.value == s.translateX.value && t.translateY.value == s.translateY.value
    ensures t.cardScale.value == s.cardScale.value
    ensures t.translateX.animation == Some(Spring(0.0, SpringDamping, SpringStiffness, None))
    ensures t.translateY.animation == Some(Spring(0.0, SpringDamping, SpringStiffness, None))
    ensures t.cardScale.animation == Some(Spring(1.0, SpringDamping, SpringStiffness, None))
    ensures !t.isCardDismissed && t.callbackCalls == s.callbackCalls
  {
    var spring := Spring(0.0, SpringDamping, SpringStiffness, None);
    GestureState(
      s.translateX.(animation := Some(spring)),
      s.translateY.(animation := Some(spring)),
      s.cardScale.(animation := Some(Spring(1.0, SpringDamping, SpringStiffness, None))),
      false,
      s.callbackCalls)
  }

  /** What reset assigns does not depend on the prior animations or flag; so two resets are one. */
  lemma ResetIdempotent(s: GestureState, s': GestureState)
    requires s.translateX.value == s'.translateX.value && s.translateY.value == s'.translateY.value
    requires s.cardScale.value == s'.cardScale.value && s.callbackCalls == s'.callbackCalls
    ensures AfterReset(s) == AfterReset(s')
    ensures AfterReset(AfterReset(s)) == AfterReset(s)
  {
  }

  // ---------------------------------------------------------------------------
  // What the card draws

  /** Rotation over the knots [-w/2, 0, w/2]; opacity and scale over the distance |x| on [0, w/2]. */
  function Rotation(x: real, w: Width): (r: real)
    ensures -15.0 <= r <= 15.0
  {
    var h := w / 2.0;
    Interpolation.Interpolate(x, [-h, 0.0, h], [-15.0, 0.0, 15.0])
  }

  function Opacity(x: real, w: Width): (r: real)
    ensures 0.5 <= r <= 1.0
  {
    Interpolation.Interpolate(Abs(x), [0.0, w / 2.0], [1.0, 0.5])
  }

  function Scale(x: real, w: Width): (r: real)
    ensures 0.95 <= r <= 1.0
  {
    Interpolation.Interpolate(Abs(x), [0.0, w / 2.0], [1.0, 0.95])
  }

  /** The values `cardAnimatedStyle` hands to the view. */
  datatype AnimatedStyle = AnimatedStyle(translateX: real, translateY: real, rotateDeg: real, scale: real, opacity: real)

  /** `scale * cardScale.value`: the interpolated scale times the scale value,
      between 95% and all of a non-negative scale value. */
  function DrawnScale(x: real, w: Width, factor: real): (r: real)
    ensures r == Visual.Scale(x, w) * factor
    ensures factor >= 0.0 ==> 0.95 * factor <= r <= factor
  {
    ScaleMatchesReference(x, w);
    Arith.ScaledFactor(Scale(x, w), 0.95, factor);
    Scale(x, w) * factor
  }

  /** `cardAnimatedStyle`: the offsets pass through unchanged, the interpolated
      scale is multiplied by the scale value, the opacity is the interpolated
      one alone. */
  function CardAnimatedStyle(s: GestureState, w: Width): (st: AnimatedStyle)
    ensures st.translateX == s.translateX.value && st.translateY == s.translateY.value
    ensures st.rotateDeg == Visual.Rotation(s.translateX.value, w)
    ensures st.opacity == Visual.Opacity(s.translateX.value, w)
    ensures st.scale == Visual.Scale(s.translateX.value, w) * s.cardScale.value
  {
    var x := s.translateX.value;
    RotationMatchesReference(x, w);
    OpacityMatchesReference(x, w);
    AnimatedStyle(x, s.translateY.value, Rotation(x, w), DrawnScale(x, w, s.cardScale.value), Opacity(x, w))
  }

  /** The tilt stays within 15 degrees, the opacity within [0.5, 1] and the
      scale between 95% and all of the scale value. */
  lemma StyleBounds(s: GestureState, w: Width)
    ensures -15.0 <= CardAnimatedStyle(s, w).rotateDeg <= 15.0
    ensures 0.5 <= CardAnimatedStyle(s, w).opacity <= 1.0
    ensures s.cardScale.value >= 0.0 ==> 0.95 * s.cardScale.value <= CardAnimatedStyle(s, w).scale <= s.cardScale.value
  {
    Visual.Bounds(s.translateX.value, w);
  }

  /** Each interpolation computes exactly the reference tilt, opacity or scale. */
  lemma RotationMatchesReference(x: real, w: Width)
    ensures Rotation(x, w) == Visual.Rotation(x, w)
  {
    Interpolation.CentredKnots(x, w, -15.0, 0.0, 15.0);
    Visual.Inside(x, w);
    Visual.Saturation(x, w);
  }

  lemma OpacityMatchesReference(x: real, w: Width)
    ensures Opacity(x, w) == Visual.Opacity(x, w)
  {
    Interpolation.HalfWidthKnots(Abs(x), w, 1.0, 0.5);
    Visual.Inside(x, w);
    Visual.Saturation(x, w);
  }

  lemma ScaleMatchesReference(x: real, w: Width)
    ensures Scale(x, w) == Visual.Scale(x, w)
  {
    Interpolation.HalfWidthKnots(Abs(x), w, 1.0, 0.95);
    Visual.Inside(x, w);
    Visual.Saturation(x, w);
  }

  /** At the centre the card is upright, opaque and full size; from half a
      screen width on the three values saturate; rotation is odd in the
      offset, opacity and scale are even. */
  lemma {:induction false} InterpolationShape(x: real, w: Width)
    ensures Rotation(0.0, w) == 0.0 && Opacity(0.0, w) == 1.0 && Scale(0.0, w) == 1.0
    ensures Abs(x) >= w / 2.0 ==>
      Rotation(x, w) == (if x > 0.0 then 15.0 else -15.0) && Opacity(x, w) == 0.5 && Scale(x, w) == 0.95
    ensures Rotation(-x, w) == -Rotation(x, w)
    ensures Opacity(-x, w) == Opacity(x, w) && Scale(-x, w) == Scale(x, w)
  {
    RotationMatchesReference(0.0, w);
    RotationMatchesReference(x, w);
    RotationMatchesReference(-x, w);
    Visual.Symmetry(x, w);
    Visual.Saturation(x, w);
  }

  // ---------------------------------------------------------------------------
  // Sequences of events and the dismiss callback

  datatype Event =
    | GestureEnded(translationX: real, velocityX: real)
    | ResetRequested

  function Step(s: GestureState, e: Event, w: Width, hasCallback: bool): GestureState {
    match e
    case GestureEnded(tx, vx) => AfterGestureEnd(s, tx, vx, w, hasCallback)
    case ResetRequested => AfterReset(s)
  }

  function Run(s: GestureState, events: seq<Event>, w: Width, hasCallback: bool): GestureState
    decreases |events|
  {
    if events == [] then s else Run(Step(s, events[0], w, hasCallback), events[1..], w, hasCallback)
  }

  /** How many gesture ends in the sequence went past the threshold. */
  function Dismissals(events: seq<Event>, w: Width): nat
    decreases |events|
  {
    if events == [] then 0
    else
      var here := if events[0].GestureEnded? && Abs(events[0].translationX) > SwipeThreshold(w) then 1 else 0;
      here + Dismissals(events[1..], w)
  }

  /** The callback is called exactly once per dismissal (and never without a callback). */
  lemma {:induction false} CallbackOncePerDismissal(s: GestureState, events: seq<Event>, w: Width, hasCallback: bool)
    ensures Run(s, events, w, hasCallback).callbackCalls ==
      s.callbackCalls + (if hasCallback then Dismissals(events, w) else 0)
    decreases |events|
  {
    if events != [] {
      CallbackOncePerDismissal(Step(s, events[0], w, hasCallback), events[1..], w, hasCallback);
    }
  }

  /** Once dismissed, the card stays dismissed through any further gestures;
      only a reset clears the flag. */
  lemma {:induction false} OnlyResetClearsDismissed(s: GestureState, events: seq<Event>, w: Width, hasCallback: bool)
    requires s.isCardDismissed
    requires forall i :: 0 <= i < |events| ==> events[i].GestureEnded?
    ensures Run(s, events, w, hasCallback).isCardDismissed
    decreases |events|
  {
    if events != [] {
      OnlyResetClearsDismissed(Step(s, events[0], w, hasCallback), events[1..], w, hasCallback);
    }
  }

  // ---------------------------------------------------------------------------
  // The hook instance

  class CardGesture {
    const width: Width
    const hasCallback: bool
    var translateX: SharedValue
    var translateY: SharedValue
    var cardScale: SharedValue
    var isCardDismissed: bool
    var callbackCalls: nat

    function State(): GestureState
      reads this
    {
      GestureState(translateX, translateY, cardScale, isCardDismissed, callbackCalls)
    }

    /** `useGestureHelpers(onDismissCallback)`: the shared values start at 0, 0, 1 and false. */
    constructor (width: Width, hasCallback: bool)
      ensures this.width == width && this.hasCallback == hasCallback
      ensures State() == Initial()
    {
      this.width := width;
      this.hasCallback := hasCallback;
      translateX := SharedValue(0.0, None);
      translateY := SharedValue(0.0, None);
      cardScale := SharedValue(1.0, None);
      isCardDismissed := false;
      callbackCalls := 0;
    }

    /** `handleGestureEnd`. */
    method HandleGestureEnd(translationX: real, velocityX: real)
      modifies this
      ensures State() == AfterGestureEnd(old(State()), translationX, velocityX, width, hasCallback)
    {
      var shouldDismiss := Abs(translationX) > SwipeThreshold(width);
      if shouldDismiss {
        var direction := if translationX > 0.0 then 1.0 else -1.0;
        var targetX := direction * width * 1.5;
        if Abs(velocityX) > DecayVelocityCutoff {
          translateX := translateX.(animation := Some(Decay(velocityX,
            if direction > 0.0 then 0.0 else -(width as real) * 2.0,
            if direction > 0.0 then width * 2.0 else 0.0)));
        } else {
          translateX := translateX.(animation := Some(Timing(targetX, ExitDuration)));
        }
        isCardDismissed := true;
        if hasCallback {
          callbackCalls := callbackCalls + 1;
        }
      } else {
        translateX := translateX.(animation := Some(Spring(0.0, SpringDamping, SpringStiffness, Some(velocityX))));
        translateY := translateY.(animation := Some(Spring(0.0, SpringDamping, SpringStiffness, None)));
      }
    }

    /** `resetSharedValues`. */
    method ResetSharedValues()
      modifies this
      ensures State() == AfterReset(old(State()))
    {
      translateX := translateX.(animation := Some(Spring(0.0, SpringDamping, SpringStiffness, None)));
      translateY := translateY.(animation := Some(Spring(0.0, SpringDamping, SpringStiffness, None)));
      cardScale := cardScale.(animation := Some(Spring(1.0, SpringDamping, SpringStiffness, None)));
      isCardDismissed := false;
    }
  }
}
