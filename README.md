# Swipeable card: release rule, reset and drag visuals

This project models the gesture logic of a React Native demo card that can be
dragged sideways, tilts and fades as it moves, and is dismissed when it is let
go far enough from the centre. The repository holds two implementations of
the same behaviour, and each is modelled in its own module with its own
constants:

- `SwapableCard` models `src/components/SwapableCard.tsx`, built on the classic
  `Animated` API. The class `SwapableCard.Card` holds the four animated values
  (`translateX`, `translateY`, `fadeAnim`, `scaleAnim`) and counts the calls
  of `onDismiss`. Its methods are `Move` (the `Animated.event` drag mapping),
  `Release` (`onPanResponderRelease`), `Reset` (`reset`) and `SettleFade` (the
  end of the running fade, where the `onDismiss` continuation runs).
- `GestureHelpers` models `src/hooks/useGestureHelpers.ts`, built on Reanimated
  shared values. The class `GestureHelpers.CardGesture` holds `translateX`,
  `translateY`, `cardScale` and `isCardDismissed`, and counts the calls of the
  dismiss callback. Its methods are `HandleGestureEnd` and
  `ResetSharedValues`.

An animated value is its current number plus the animation last started on
it. That animation is recorded as a kind (spring, timing or decay), a target
and the parameters the code passes. Each method is proved against a pure step
function on a state datatype (`AfterRelease`, `AfterReset`, `AfterFadeEnds`,
`AfterGestureEnd`, ...). The properties are proved about those step functions:

- the release rule as an if-and-only-if, including the strict threshold;
- reset forgets the prior state, so two resets equal one;
- over any sequence of events (`Run`), `onDismiss` is called at most once per
  dismissal in the classic card, and exactly once per dismissal in the hook.

The rotation, opacity and scale come from interpolating the horizontal offset.
The libraries' `interpolate` code is not visible, so `Interpolation.Interpolate`
defines clamped piecewise-linear interpolation itself. `Visual` gives the same
three values in closed form: linear up to half a screen width, constant beyond
it. Both modules are proved to compute exactly `Visual`'s values. From that
follow the bounds, the values at the centre, the saturation, the odd/even
symmetry and the monotonicity. `Agreement` relates the two implementations to
each other.

The two implementations differ, and the model keeps the differences:

- The velocity cutoff is 0.5 in the classic card and 500 in the hook.
- Only the hook clamps its decay.
- The classic card calls `onDismiss` when its 300 ms fade ends. The hook
  has no fade: it calls its callback at once, and its reset has no fade-in.
- Only the classic card multiplies its opacity by a fade factor and damps
  the vertical offset to 30%.

## Model

| member | source | states |
|---|---|---|
| `SwapableCard.SwipeThreshold` | src/components/SwapableCard.tsx:6 | the dismiss threshold is positive and below half the screen width (it is 0.3·W) |
| `SwapableCard.DecideRelease` | src/components/SwapableCard.tsx:72-94 | the card springs back iff abs(dx) ≤ 0.3·W; decay iff abs(dx) > 0.3·W and abs(vx) > 0.5, carrying vx and deceleration 0.997; otherwise a 300 ms slide to a target of magnitude 1.5·W on the side of dx |
| `SwapableCard.Mounted` | src/components/SwapableCard.tsx:10-30 | the mounted card has no pending `onDismiss` continuation, is consistent and has made no `onDismiss` calls |
| `SwapableCard.AfterDrag` | src/components/SwapableCard.tsx:67-70 | a drag sets the two offsets to dx and dy and stops their animations; fade, scale and the dismissal bookkeeping are unchanged |
| `SwapableCard.AfterRelease` | src/components/SwapableCard.tsx:72-121 | a release moves no value at once and never calls `onDismiss`; within the threshold both offsets spring to 0 (friction 5, tension 40) and the fade and pending dismissal are untouched; past it translateX runs the decay or timed slide the release rule picks, and the fade-out to 0 over 300 ms starts and carries the `onDismiss` continuation; the consistency invariant is preserved |
| `SwapableCard.AfterReset` | src/components/SwapableCard.tsx:33-56 | reset sets offsets 0, fade 0, scale 0.5, then springs translateX to 0, fades in to 1 over 600 ms and springs scale to 1 (friction 8, tension 40); no dismissal is pending afterwards; the call count is kept |
| `SwapableCard.AfterFadeEnds` | src/components/SwapableCard.tsx:96-103 | when the fade ends, `onDismiss` is called exactly when a dismissal fade was running and an `onDismiss` was supplied; a dismissal fade leaves the fade at 0; the other values are unchanged |
| `SwapableCard.ResetIdempotent` | src/components/SwapableCard.tsx:33-56 | reset gives the same state whatever came before, so two resets equal one |
| `SwapableCard.Rotation` | src/components/SwapableCard.tsx:126-130 | the rotation interpolation stays within [-15, 15] degrees |
| `SwapableCard.Opacity` | src/components/SwapableCard.tsx:132-136 | the opacity interpolation stays within [0.5, 1] |
| `SwapableCard.Scale` | src/components/SwapableCard.tsx:138-142 | the scale interpolation stays within [0.95, 1] |
| `SwapableCard.DrawnOpacity` | src/components/SwapableCard.tsx:154 | the multiplied opacity is the reference opacity times the fade factor, so between half and all of a non-negative fade |
| `SwapableCard.DrawnScale` | src/components/SwapableCard.tsx:152 | the multiplied scale is the reference scale times the scale factor, so between 95% and all of a non-negative factor |
| `SwapableCard.Render` | src/components/SwapableCard.tsx:144-154 | the drawn translateX is the offset and translateY is 0.3 times the vertical offset; rotation is the reference rotation of the offset; opacity is the reference opacity times the fade factor; scale is the reference scale times the scale factor |
| `SwapableCard.RenderBounds` | src/components/SwapableCard.tsx:144-154 | the drawn vertical offset is never larger than the drag; rotation within ±15; opacity between 0.5 and 1 times a non-negative fade; scale between 0.95 and 1 times a non-negative scale factor |
| `SwapableCard.RotationMatchesReference` | src/components/SwapableCard.tsx:126-130 | the rotation interpolation equals the closed-form reference rotation for every offset |
| `SwapableCard.OpacityMatchesReference` | src/components/SwapableCard.tsx:132-136 | the opacity interpolation equals the closed-form reference opacity for every offset |
| `SwapableCard.ScaleMatchesReference` | src/components/SwapableCard.tsx:138-142 | the scale interpolation equals the closed-form reference scale for every offset |
| `SwapableCard.InterpolationShape` | src/components/SwapableCard.tsx:126-142 | at offset 0 rotation, opacity and scale are 0, 1, 1; from abs(x) ≥ W/2 they are ±15, 0.5, 0.95; rotation is odd and opacity and scale are even in the offset |
| `SwapableCard.ResetRendersEntryPose` | src/components/SwapableCard.tsx:33-37 | right after a reset the card is drawn centred, upright, at scale 0.5 and opacity 0 |
| `SwapableCard.OnDismissAtMostOncePerDismissal` | src/components/SwapableCard.tsx:96-103 | over any sequence of drags, releases, resets and fade ends, the `onDismiss` calls made plus the pending one never exceed the dismissals; without `onDismiss` nothing is called |
| `SwapableCard.DismissCallsOnDismissAfterFade` | src/components/SwapableCard.tsx:97-103 | a dismissal does not call `onDismiss` at release; the fade's end calls it once if supplied and leaves the fade at 0; a second fade end calls nothing more |
| `SwapableCard.WorkedReleases` | src/components/SwapableCard.tsx:75-103 | on a 400-wide screen: 100 springs back, 150 slow slides to 600 in 300 ms, -150 fast decays with its velocity, a slow drag to -250 slides to -600 and calls `onDismiss` after the fade |
| `SwapableCard.Card.constructor` | src/components/SwapableCard.tsx:10-30 | mounting yields the mount values 0, 0, 0, 0.5 with the entry fade-in and scale spring running |
| `SwapableCard.Card.Move` | src/components/SwapableCard.tsx:67-70 | the new state is the drag step of the old one |
| `SwapableCard.Card.Release` | src/components/SwapableCard.tsx:72-121 | the new state is the release step of the old one, and the consistency invariant is kept |
| `SwapableCard.Card.Reset` | src/components/SwapableCard.tsx:33-56 | the new state is the reset step of the old one |
| `SwapableCard.Card.SettleFade` | src/components/SwapableCard.tsx:96-103 | the new state is the fade-end step of the old one |
| `GestureHelpers.SwipeThreshold` | src/hooks/useGestureHelpers.ts:16 | the dismiss threshold is positive and below half the screen width (it is 0.3·W) |
| `GestureHelpers.DecideGestureEnd` | src/hooks/useGestureHelpers.ts:42-61 | spring back iff abs(translationX) ≤ 0.3·W; decay iff past it and abs(velocityX) > 500, carrying velocityX with a clamp 2·W wide that starts at 0 for a rightward and ends at 0 for a leftward dismissal; otherwise a 300 ms slide to magnitude 1.5·W on the side of translationX |
| `GestureHelpers.DecayStaysOnDismissalSide` | src/hooks/useGestureHelpers.ts:49-57 | every position the decay clamp allows lies on the dismissal side of the centre, and the clamp contains the off-screen slide target |
| `GestureHelpers.Initial` | src/hooks/useGestureHelpers.ts:24-27 | the hook starts not dismissed, with scale 1 and no callback calls |
| `GestureHelpers.AfterGestureEnd` | src/hooks/useGestureHelpers.ts:39-79 | no value moves at once and cardScale is untouched; within the threshold translateX springs to 0 seeded with velocityX and translateY springs to 0, flag and calls unchanged; past it translateX runs the decay or timed slide the gesture-end rule picks, the flag is set, translateY untouched and the callback called once, at once, iff it is supplied |
| `GestureHelpers.AfterReset` | src/hooks/useGestureHelpers.ts:30-36 | reset springs offsets to 0 and scale to 1 (damping 15, stiffness 150), clears the dismissed flag and moves nothing at once |
| `GestureHelpers.ResetIdempotent` | src/hooks/useGestureHelpers.ts:30-36 | reset does not depend on prior animations or flag, so two resets equal one |
| `GestureHelpers.Rotation` | src/hooks/useGestureHelpers.ts:84-89 | the rotation interpolation stays within [-15, 15] degrees |
| `GestureHelpers.Opacity` | src/hooks/useGestureHelpers.ts:92-97 | the opacity interpolation of abs(x) stays within [0.5, 1] |
| `GestureHelpers.Scale` | src/hooks/useGestureHelpers.ts:100-105 | the scale interpolation of abs(x) stays within [0.95, 1] |
| `GestureHelpers.DrawnScale` | src/hooks/useGestureHelpers.ts:112 | the multiplied scale is the reference scale times cardScale, so between 95% and all of a non-negative cardScale |
| `GestureHelpers.CardAnimatedStyle` | src/hooks/useGestureHelpers.ts:107-115 | both offsets pass through unchanged; rotation is the reference rotation and opacity the reference opacity of the offset, with no fade factor; scale is the reference scale times cardScale |
| `GestureHelpers.StyleBounds` | src/hooks/useGestureHelpers.ts:107-115 | rotation within ±15; opacity within [0.5, 1]; scale between 0.95 and 1 times a non-negative cardScale |
| `GestureHelpers.RotationMatchesReference` | src/hooks/useGestureHelpers.ts:84-89 | the rotation interpolation equals the closed-form reference rotation |
| `GestureHelpers.OpacityMatchesReference` | src/hooks/useGestureHelpers.ts:92-97 | interpolating abs(x) over [0, W/2] equals the closed-form reference opacity |
| `GestureHelpers.ScaleMatchesReference` | src/hooks/useGestureHelpers.ts:100-105 | interpolating abs(x) over [0, W/2] equals the closed-form reference scale |
| `GestureHelpers.InterpolationShape` | src/hooks/useGestureHelpers.ts:84-105 | values 0, 1, 1 at the centre; saturation from abs(x) ≥ W/2; rotation odd, opacity and scale even |
| `GestureHelpers.CallbackOncePerDismissal` | src/hooks/useGestureHelpers.ts:63-67 | over any sequence of gesture ends and resets, the callback is called exactly once per dismissal, and never without a callback |
| `GestureHelpers.OnlyResetClearsDismissed` | src/hooks/useGestureHelpers.ts:63-76 | once dismissed, the flag stays set through any further gesture ends |
| `GestureHelpers.CardGesture.constructor` | src/hooks/useGestureHelpers.ts:24-27 | the shared values start at 0, 0, 1 and false |
| `GestureHelpers.CardGesture.HandleGestureEnd` | src/hooks/useGestureHelpers.ts:39-79 | the new state is the gesture-end step of the old one |
| `GestureHelpers.CardGesture.ResetSharedValues` | src/hooks/useGestureHelpers.ts:30-36 | the new state is the reset step of the old one |
| `Interpolation.Interpolate` | src/components/SwapableCard.tsx:126-130 | clamped interpolation never leaves the span of the output range |
| `Interpolation.InterpolateAtKnot` | src/components/SwapableCard.tsx:126-130 | at every input knot the interpolation yields that knot's output |
| `Interpolation.CentredKnots` | src/components/SwapableCard.tsx:126-142 | over the knots [-W/2, 0, W/2] the interpolation is the first or last output beyond the ends and linear in x/W on each half |
| `Interpolation.HalfWidthKnots` | src/hooks/useGestureHelpers.ts:92-105 | over the knots [0, W/2] a non-negative input gives the last output from W/2 on and is linear in x/W before |
| `Visual.Bounds` | src/components/SwapableCard.tsx:126-142 | the reference rotation lies in [-15, 15], opacity in [0.5, 1], scale in [0.95, 1] |
| `Visual.Symmetry` | src/components/SwapableCard.tsx:126-142 | the reference rotation is odd; opacity and scale are even |
| `Visual.RotationMonotone` | src/components/SwapableCard.tsx:126-130 | the farther right the card, the more it tilts |
| `Visual.FadeAndShrinkMonotone` | src/hooks/useGestureHelpers.ts:91-105 | the farther from the centre, the lower the opacity and scale |
| `Agreement.InterpolationsAgree` | src/hooks/useGestureHelpers.ts:84-105 | the two implementations compute the same rotation, opacity and scale for every offset |
| `Agreement.StylesAgree` | src/hooks/useGestureHelpers.ts:107-115 | with equal offsets and scale factors, the two cards draw the same translateX, rotation and scale; the classic vertical offset is 0.3 times the hook's; the hook's opacity is the reference opacity and the classic one is that times the fade, so the classic opacity is the hook's times the fade |
| `Agreement.ReleaseRulesAgree` | src/hooks/useGestureHelpers.ts:42-61 | both rules dismiss on exactly the same offsets, and both timed slides have the same target and duration |
| `Agreement.VelocityCutoffsDiffer` | src/hooks/useGestureHelpers.ts:49 | a dismissal at speed 1 is a decay for the classic card and a timed slide for the hook |
| `Agreement.OnlyTheHookClampsTheFling` | src/hooks/useGestureHelpers.ts:49-57 | the classic decay keeps a velocity pointing back across the centre, the hook's decay is clamped to the dismissal side |

## Left out

- Animation physics: springs (friction, tension, damping, stiffness), decay per frame and timing curves are library numerics that are not visible. The model records each animation's kind, target and parameters, not the motion over time.
- Animation completion in general: only the end of the classic card's fade is modelled (`SettleFade`), because `onDismiss` waits for it. The other animations are not driven to their targets.
- SwapableCard.AfterReset: a fade stopped by `reset`'s `setValue` drops its `onDismiss` continuation. The library may still run a stopped animation's completion callback, but its code is not visible, so this is not modelled. Likewise, a second dismissal during a fade keeps a single pending continuation.
- Floating point: JavaScript numbers are modelled as exact reals.
- `Dimensions.get("window")`: the screen width is a parameter (`Screen.Width`, positive).
- PanResponder and gesture-recognizer internals (`onStartShouldSetPanResponder`, `onMoveShouldSetPanResponder`) and the `Animated.event` plumbing: a drag only writes dx and dy into the offsets (`SwapableCard.AfterDrag`).
- The hook has no drag handler of its own. Its shared values are written by a caller that is not part of this model, so `GestureHelpers` has no drag event.
- `runOnJS` and the UI-thread worklets: the hook's callback is modelled as called at once. The cross-thread scheduling is not modelled.
- `Animated.parallel` and `useNativeDriver`: animations started together are recorded together; scheduling and driver choice are not modelled.
- The `"…deg"` string formatting of the rotation: rotation is kept as a number of degrees.
- JSX, styling, shadows and NativeWind classes.
- src/screens/MainScreen.tsx and app/index.tsx: the screen composition, its `isDismissed` flag and the reset button's bounce are not part of this model.
- src/hooks/useAnimatedValues.ts is not part of this model. It only forwards to `Animated.timing`, `spring` and `decay`, and its constants repeat those of the classic card.
