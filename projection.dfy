/**
 * The per-item projection of the orbit carousel: from an item's depth (the sine of its angle,
 * in [-1, 1]) to the scale, opacity and stacking order it is drawn with, and the override for
 * the hovered or keyboard-focused item.  The x/y pixel offsets (a·cos, b·sin) are not modelled;
 * the depth is taken as an input instead of being computed from the angle.
 */
module Projection {

  /** How one card is drawn. */
  datatype Style = Style(scale: real, opacity: real, zIndex: int)

  /** Extra scale of a hovered or focused card. */
  const HighlightScale: real := 1.15
  /** Stacking order of a hovered or focused card. */
  const HighlightZIndex: int := 1000

  /** `0.6 + (depth + 1) * 0.2` */
  function Scale(depth: real): real
  {
    0.6 + (depth + 1.0) * 0.2
  }

  /** `0.5 + (depth + 1) * 0.25` */
  function Opacity(depth: real): real
  {
    0.5 + (depth + 1.0) * 0.25
  }

  /** `Math.floor((depth + 1) * 50)` */
  function ZIndex(depth: real): int
  {
    ((depth + 1.0) * 50.0).Floor
  }

  /** The depth-derived style of a card nobody hovers or focuses. */
  function DepthStyle(depth: real): Style
  {
    Style(Scale(depth), Opacity(depth), ZIndex(depth))
  }

  /** The style a card is rendered with: a highlighted card is enlarged, opaque and on top. */
  function ItemStyle(depth: real, highlighted: bool): Style
  {
    if highlighted then Style(Scale(depth) * HighlightScale, 1.0, HighlightZIndex)
    else DepthStyle(depth)
  }

  /** For a depth in [-1, 1] the three values stay in their documented ranges. */
  lemma DepthStyleBounds(depth: real)
    requires -1.0 <= depth <= 1.0
    ensures 0.6 <= DepthStyle(depth).scale <= 1.0
    ensures 0.5 <= DepthStyle(depth).opacity <= 1.0
    ensures 0 <= DepthStyle(depth).zIndex <= 100
  {
  }

  /** Nearer cards (larger depth) are never smaller, fainter or lower in the stack. */
  lemma DepthStyleMonotone(nearer: real, farther: real)
    requires farther <= nearer
    ensures DepthStyle(farther).scale <= DepthStyle(nearer).scale
    ensures DepthStyle(farther).opacity <= DepthStyle(nearer).opacity
    ensures DepthStyle(farther).zIndex <= DepthStyle(nearer).zIndex
  {
    var low, high := (farther + 1.0) * 50.0, (nearer + 1.0) * 50.0;
    assert low.Floor as real <= low <= high;
    assert low.Floor <= high.Floor;
  }

  /** The front of the ellipse (depth 1) and the back (depth -1). */
  lemma DepthStyleEndpoints()
    ensures DepthStyle(1.0) == Style(1.0, 1.0, 100)
    ensures DepthStyle(-1.0) == Style(0.6, 0.5, 0)
  {
  }

  /**
   * A highlighted card is drawn at 1.15 times its own depth scale, fully opaque, and strictly
   * above every card that is not highlighted, whatever the two depths are.
   */
  lemma HighlightIsOnTop(depth: real, otherDepth: real)
    requires -1.0 <= otherDepth <= 1.0
    ensures ItemStyle(depth, true).zIndex > ItemStyle(otherDepth, false).zIndex
    ensures ItemStyle(depth, true).opacity >= ItemStyle(otherDepth, false).opacity
    ensures ItemStyle(depth, true).scale == DepthStyle(depth).scale * HighlightScale
  {
    DepthStyleBounds(otherDepth);
  }

  /** The ellipse's semi-axes for a container of the given size. */
  datatype Axes = Axes(a: real, b: real)

  /** `a = width * 0.35`, `b = height * 0.35` */
  function SemiAxes(width: real, height: real): Axes
  {
    Axes(width * 0.35, height * 0.35)
  }

  /**
   * The ellipse keeps the container's proportions, and the initial 800 × 500 container gives
   * semi-axes 280 and 175.
   */
  lemma SemiAxesFollowContainer(width: real, height: real)
    ensures SemiAxes(width, height).a * height == SemiAxes(width, height).b * width
    ensures width >= 0.0 && height >= 0.0 ==> SemiAxes(width, height).a >= 0.0 && SemiAxes(width, height).b >= 0.0
    ensures SemiAxes(800.0, 500.0) == Axes(280.0, 175.0)
  {
  }
}
