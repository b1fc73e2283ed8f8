/** What both card implementations read from the platform: the window width
    (`Dimensions.get("window").width`, taken as a parameter) and `Math.abs`. */
module Screen {

  /** A window width; the card logic is only meaningful for a positive one. */
  type Width = w: real | w > 0.0 witness 1.0

  function Abs(x: real): (r: real)
    ensures r >= 0.0
    ensures r == x || r == -x
  {
    if x < 0.0 then -x else x
  }
}
