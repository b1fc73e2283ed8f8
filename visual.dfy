/** Reference definitions of how far the card tilts, how transparent and how
    small it looks at a horizontal offset x, stated in closed form: over the
    first half screen width of drag the rotation grows linearly from 0 to
    ±15 degrees, the opacity falls linearly from 1 to 0.5 and the scale from 1
    to 0.95; further out all three stay at those limits. Both card
    implementations are proved to compute exactly these values. */
module Visual {
  import opened Screen
  import opened Arith

  function Rotation(x: real, w: Width): real {
    if x <= -(w as real) / 2.0 then -15.0
    else if x >= w / 2.0 then 15.0
    else 30.0 * (x / w)
  }

  function Opacity(x: real, w: Width): real {
    if Abs(x) >= w / 2.0 then 0.5 else 1.0 - Abs(x) / w
  }

  function Scale(x: real, w: Width): real {
    if Abs(x) >= w / 2.0 then 0.95 else 1.0 - 0.1 * (Abs(x) / w)
  }

  /** Strictly within half a screen width of the centre the three values are linear in x / w. */
  lemma Inside(x: real, w: Width)
    ensures -(w as real) / 2.0 < x < w / 2.0 ==>
      Rotation(x, w) == 30.0 * (x / w) &&
      Opacity(x, w) == 1.0 - Abs(x) / w &&
      Scale(x, w) == 1.0 - 0.1 * (Abs(x) / w)
  {
  }

  /** From half a screen width on, the three values stay at their limits. */
  lemma Saturation(x: real, w: Width)
    ensures x >= w / 2.0 ==> Rotation(x, w) == 15.0
    ensures x <= -(w as real) / 2.0 ==> Rotation(x, w) == -15.0
    ensures Abs(x) >= w / 2.0 ==> Opacity(x, w) == 0.5 && Scale(x, w) == 0.95
  {
  }

  /** Rotation stays within [-15, 15], opacity within [0.5, 1], scale within [0.95, 1]. */
  lemma {:induction false} Bounds(x: real, w: Width)
    ensures -15.0 <= Rotation(x, w) <= 15.0
    ensures 0.5 <= Opacity(x, w) <= 1.0
    ensures 0.95 <= Scale(x, w) <= 1.0
  {
    if Abs(x) < w / 2.0 {
      DivideMonotone(x, 0.5 * w, w);
      DivideMonotone(-0.5 * w, x, w);
      Cancel(0.5, w);
      Cancel(-0.5, w);
      DivideMonotone(Abs(x), 0.5 * w, w);
      DivideMonotone(0.0, Abs(x), w);
    }
  }

  /** Rotation is odd in the offset; opacity and scale are even. */
  lemma {:induction false} Symmetry(x: real, w: Width)
    ensures Rotation(-x, w) == -Rotation(x, w)
    ensures Opacity(-x, w) == Opacity(x, w)
    ensures Scale(-x, w) == Scale(x, w)
  {
    Negate(x, w);
  }

  /** The more the card is dragged to the right, the more it tilts clockwise. */
  lemma {:induction false} RotationMonotone(x: real, y: real, w: Width)
    requires x <= y
    ensures Rotation(x, w) <= Rotation(y, w)
  {
    var h := w / 2.0;
    if -h < x && y < h {
      DivideMonotone(x, y, w);
    } else if x <= -h {
      Bounds(y, w);
    } else {
      Bounds(x, w);
    }
  }

  /** The farther the card is from the centre, the fainter and smaller it looks. */
  lemma {:induction false} FadeAndShrinkMonotone(x: real, y: real, w: Width)
    requires Abs(x) <= Abs(y)
    ensures Opacity(y, w) <= Opacity(x, w)
    ensures Scale(y, w) <= Scale(x, w)
  {
    Bounds(x, w);
    Bounds(y, w);
    if Abs(y) < w / 2.0 {
      DivideMonotone(Abs(x), Abs(y), w);
    }
  }
}
