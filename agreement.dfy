/** How the two implementations of the card relate: they dismiss on the same
    drags and draw the same tilt, opacity and scale, but they read the
    release velocity against different cutoffs, and only the classic card
    multiplies its opacity by a fade and damps its vertical offset. */
module Agreement {
  import opened Screen
  import SwapableCard
  import GestureHelpers
  import Visual

  /** Both implementations interpolate the offset to the same rotation, opacity and scale. */
  lemma InterpolationsAgree(x: real, w: Width)
    ensures SwapableCard.Rotation(x, w) == GestureHelpers.Rotation(x, w)
    ensures SwapableCard.Opacity(x, w) == GestureHelpers.Opacity(x, w)
    ensures SwapableCard.Scale(x, w) == GestureHelpers.Scale(x, w)
  {
    SwapableCard.RotationMatchesReference(x, w);
    GestureHelpers.RotationMatchesReference(x, w);
    SwapableCard.OpacityMatchesReference(x, w);
    GestureHelpers.OpacityMatchesReference(x, w);
    SwapableCard.ScaleMatchesReference(x, w);
    GestureHelpers.ScaleMatchesReference(x, w);
  }

  /** Drawn at the same offsets and with the same scale factor, the two cards
      have the same rotation and scale; the hook's opacity is the reference
      opacity, the classic card's is that times its fade factor; and the
      classic card damps its vertical offset to 30%. */
  lemma StylesAgree(s: SwapableCard.CardState, g: GestureHelpers.GestureState, w: Width)
    requires s.translateX.value == g.translateX.value && s.translateY.value == g.translateY.value
    requires s.scaleAnim.value == g.cardScale.value
    ensures SwapableCard.Render(s, w).translateX == GestureHelpers.CardAnimatedStyle(g, w).translateX
    ensures SwapableCard.Render(s, w).translateY == 0.3 * GestureHelpers.CardAnimatedStyle(g, w).translateY
    ensures SwapableCard.Render(s, w).rotateDeg == GestureHelpers.CardAnimatedStyle(g, w).rotateDeg
    ensures SwapableCard.Render(s, w).scale == GestureHelpers.CardAnimatedStyle(g, w).scale
    ensures GestureHelpers.CardAnimatedStyle(g, w).opacity == Visual.Opacity(s.translateX.value, w)
    ensures SwapableCard.Render(s, w).opacity == Visual.Opacity(s.translateX.value, w) * s.fadeAnim.value
  {
    OffsetsAndTiltAgree(s, g, w);
    ScalesAgree(s, g, w);
    HookOpacityAt(s, g, w);
    ClassicOpacity(s, w);
  }

  lemma OffsetsAndTiltAgree(s: SwapableCard.CardState, g: GestureHelpers.GestureState, w: Width)
    requires s.translateX.value == g.translateX.value && s.translateY.value == g.translateY.value
    ensures SwapableCard.Render(s, w).translateX == GestureHelpers.CardAnimatedStyle(g, w).translateX
    ensures SwapableCard.Render(s, w).translateY == 0.3 * GestureHelpers.CardAnimatedStyle(g, w).translateY
    ensures SwapableCard.Render(s, w).rotateDeg == GestureHelpers.CardAnimatedStyle(g, w).rotateDeg
  {
  }

  lemma ScalesAgree(s: SwapableCard.CardState, g: GestureHelpers.GestureState, w: Width)
    requires s.translateX.value == g.translateX.value && s.scaleAnim.value == g.cardScale.value
    ensures SwapableCard.Render(s, w).scale == GestureHelpers.CardAnimatedStyle(g, w).scale
  {
    ClassicScale(s, w);
    HookScale(g, w);
    SameProduct(Visual.Scale(s.translateX.value, w), Visual.Scale(g.translateX.value, w),
      s.scaleAnim.value, g.cardScale.value);
  }

  /** Equal factors give equal products. */
  lemma SameProduct(a: real, b: real, f: real, g: real)
    requires a == b && f == g
    ensures a * f == b * g
  {
  }

  // The drawn values one at a time, so that each proof above sees only the fact it needs.

  lemma ClassicScale(s: SwapableCard.CardState, w: Width)
    ensures SwapableCard.Render(s, w).scale == Visual.Scale(s.translateX.value, w) * s.scaleAnim.value
  {
  }

  lemma HookScale(g: GestureHelpers.GestureState, w: Width)
    ensures GestureHelpers.CardAnimatedStyle(g, w).scale == Visual.Scale(g.translateX.value, w) * g.cardScale.value
  {
  }

  lemma ClassicOpacity(s: SwapableCard.CardState, w: Width)
    ensures SwapableCard.Render(s, w).opacity == Visual.Opacity(s.translateX.value, w) * s.fadeAnim.value
  {
  }

  lemma HookOpacityAt(s: SwapableCard.CardState, g: GestureHelpers.GestureState, w: Width)
    requires s.translateX.value == g.translateX.value
    ensures GestureHelpers.CardAnimatedStyle(g, w).opacity == Visual.Opacity(s.translateX.value, w)
  {
  }

  /** Both release rules dismiss on exactly the same offsets, and when both
      slide the card off they slide it to the same target in the same time. */
  lemma ReleaseRulesAgree(dx: real, classicVx: real, hookVx: real, w: Width)
    ensures SwapableCard.DecideRelease(dx, classicVx, w).SpringBack? ==
            GestureHelpers.DecideGestureEnd(dx, hookVx, w).SpringBack?
    ensures var c, h := SwapableCard.DecideRelease(dx, classicVx, w), GestureHelpers.DecideGestureEnd(dx, hookVx, w);
      c.DismissByTiming? && h.DismissByTiming? ==> c.targetX == h.targetX && c.duration == h.duration
  {
  }

  /** The velocity cutoffs are not the same: a dismissal released at speed 1
      is a fling for the classic card and a timed slide for the hook. */
  lemma VelocityCutoffsDiffer(w: Width)
    ensures SwapableCard.DecideRelease(w, 1.0, w).DismissByDecay?
    ensures GestureHelpers.DecideGestureEnd(w, 1.0, w).DismissByTiming?
  {
  }

  /** The classic card's fling carries the release velocity whatever its
      sign, so a card dismissed to the right may be flung back to the left;
      the hook's fling is clamped to the right-hand side. */
  lemma OnlyTheHookClampsTheFling(w: Width)
    ensures SwapableCard.DecideRelease(w, -1.0, w) == SwapableCard.DismissByDecay(-1.0, 0.997)
    ensures var d := GestureHelpers.DecideGestureEnd(w, -600.0, w);
      d.DismissByDecay? && d.velocity == -600.0 && d.clampLo == 0.0
  {
  }
}
