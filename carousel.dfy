/**
 * The interactive orbit carousel (`OrbitCarousel`): it owns an orbit engine for its products and
 * turns mouse drags, touch drags, wheel turns and key presses into engine impulses, keeps a
 * keyboard focus cursor and the hovered product, and renders each card with the projection.
 *
 * Browser events become method calls with their data as parameters; `preventDefault`, listener
 * registration and the React render cycle are not modelled.
 */
module Carousel {
  import opened Options
  import Orbit
  import Projection

  /** The product fields the carousel reads. */
  datatype Product = Product(id: string, name: string, tagline: string, color: string, pixelArt: string)

  /** A mouse or touch position in client coordinates. */
  datatype Point = Point(x: real, y: real)

  /** The keys the carousel tells apart. */
  datatype Key = ArrowLeft | ArrowRight | Enter | OtherKey

  /** The engine options the carousel passes to `useOrbit`. */
  const Friction: real := 0.96
  const Idle: real := 0.0008

  /**
   * The `focusedIndex` state.  JavaScript evaluates `x % 0` to NaN, so with no products an
   * arrow key leaves a NaN here; NaN equals no index and is not `>= 0`.
   */
  datatype Focus = Index(i: int) | NaN

  const NoFocus: Focus := Index(-1)

  /** JavaScript's `%` on integers: the remainder truncated toward zero (it takes the sign of `a`). */
  function TruncRem(a: int, n: nat): (r: int)
    requires n > 0
    ensures a >= 0 ==> 0 <= r < n
    ensures a < 0 ==> -(n as int) < r <= 0
  {
    if a >= 0 then a % n else -((-a) % n)
  }

  /** JavaScript's integer quotient `Math.trunc(a / n)`: the quotient rounded toward zero. */
  function TruncQuot(a: int, n: nat): int
    requires n > 0
  {
    if a >= 0 then a / n else -((-a) / n)
  }

  /**
   * `TruncRem` is the remainder of the truncating division: `a` is the truncated quotient times
   * `n` plus the remainder, and the remainder has the sign of `a` and is smaller than `n` in
   * magnitude, which determines it.
   */
  lemma TruncRemIsRemainder(a: int, n: nat)
    requires n > 0
    ensures a == TruncQuot(a, n) * n + TruncRem(a, n)
    ensures a >= 0 ==> TruncQuot(a, n) >= 0 && 0 <= TruncRem(a, n) < n
    ensures a < 0 ==> TruncQuot(a, n) <= 0 && -(n as int) < TruncRem(a, n) <= 0
  {
    if a < 0 {
      var b := -a;
      assert b == (b / n) * n + b % n;
      assert -(b / n) * n == -((b / n) * n);
    }
  }

  /** ArrowLeft: `(previous - 1 + products.length) % products.length` */
  function FocusLeft(previous: Focus, count: nat): Focus
  {
    match previous
    case NaN => NaN
    case Index(p) => if count == 0 then NaN else Index(TruncRem(p - 1 + count, count))
  }

  /** ArrowRight: `(previous + 1) % products.length` */
  function FocusRight(previous: Focus, count: nat): Focus
  {
    match previous
    case NaN => NaN
    case Index(p) => if count == 0 then NaN else Index(TruncRem(p + 1, count))
  }

  /** The focus states a carousel of `count` products can reach. */
  predicate FocusInRange(f: Focus, count: nat)
  {
    match f
    case NaN => count == 0
    case Index(i) => -1 <= i < count
  }

  /**
   * From no focus or any focused card, both arrows land on a card in range; with no products
   * they yield NaN.
   */
  lemma {:induction false} ArrowsStayInRange(previous: Focus, count: nat)
    requires FocusInRange(previous, count)
    ensures count > 0 ==> FocusLeft(previous, count).Index? && 0 <= FocusLeft(previous, count).i < count
    ensures count > 0 ==> FocusRight(previous, count).Index? && 0 <= FocusRight(previous, count).i < count
    ensures count == 0 ==> FocusLeft(previous, count) == NaN && FocusRight(previous, count) == NaN
  {
    if count > 0 {
      var p := previous.i;
      assert p + 1 >= 0;
      if p - 1 + count < 0 {
        assert p == -1 && count == 1;
        assert TruncRem(p - 1 + count, count) == 0;
      }
    }
  }

  /**
   * The first arrow press from no focus is asymmetric: ArrowRight focuses the first card,
   * ArrowLeft the second-to-last one (the only card when there is one).
   */
  lemma FirstPressFromNoFocus(count: nat)
    requires count >= 1
    ensures FocusRight(NoFocus, count) == Index(0)
    ensures count >= 2 ==> FocusLeft(NoFocus, count) == Index(count - 2)
    ensures count == 1 ==> FocusLeft(NoFocus, count) == Index(0)
  {
  }

  /** On a focused card the two arrows undo each other, wrapping at both ends. */
  lemma ArrowsAreInverse(p: int, count: nat)
    requires 0 <= p < count
    ensures FocusLeft(FocusRight(Index(p), count), count) == Index(p)
    ensures FocusRight(FocusLeft(Index(p), count), count) == Index(p)
    ensures FocusRight(Index(count - 1), count) == Index(0)
    ensures FocusLeft(Index(0), count) == Index(count - 1)
  {
    WrapOnce(p + 1, count);
    WrapOnce(p - 1 + count, count);
    WrapOnce(count, count);
    WrapOnce(count - 1, count);
    var q := if p + 1 == count then 0 else p + 1;
    assert FocusRight(Index(p), count) == Index(q);
    WrapOnce(q - 1 + count, count);
    var r := if p == 0 then count - 1 else p - 1;
    assert FocusLeft(Index(p), count) == Index(r);
    WrapOnce(r + 1, count);
  }

  /** A value in [0, 2n) wraps at most once. */
  lemma WrapOnce(a: int, n: nat)
    requires n > 0 && 0 <= a < 2 * n
    ensures TruncRem(a, n) == if a < n then a else a - n
  {
    if a < n {
      assert a % n == a;
    } else {
      assert a - n == a % n by {
        assert a == 1 * n + (a - n);
      }
    }
  }

  /** The sum of a sequence of drag deltas. */
  function Sum(deltas: seq<real>): real
  {
    if deltas == [] then 0.0 else deltas[0] + Sum(deltas[1..])
  }

  lemma {:induction false} SumAppend(deltas: seq<real>, last: real)
    ensures Sum(deltas + [last]) == Sum(deltas) + last
  {
    if deltas != [] {
      assert (deltas + [last])[1..] == deltas[1..] + [last];
      SumAppend(deltas[1..], last);
    }
  }

  /** The x-deltas a drag forwards: each move's x minus the x recorded before it. */
  function DragDeltas(pressX: real, moves: seq<real>): (deltas: seq<real>)
    ensures |deltas| == |moves|
    decreases |moves|
  {
    if moves == [] then [] else [moves[0] - pressX] + DragDeltas(moves[0], moves[1..])
  }

  /**
   * The incremental deltas of one drag add up to the final x minus the press x, so the total
   * drag impulse does not depend on how the motion was split into events.
   */
  lemma {:induction false} DragDeltasTelescope(pressX: real, moves: seq<real>)
    requires moves != []
    ensures Sum(DragDeltas(pressX, moves)) == moves[|moves| - 1] - pressX
    decreases |moves|
  {
    if |moves| > 1 {
      DragDeltasTelescope(moves[0], moves[1..]);
    }
  }

  class OrbitCarousel {
    const products: seq<Product>
    const engine: Orbit.Engine
    /** The container size (`dimensions` state). */
    var width: real
    var height: real
    var hoveredId: Option<string>
    var focus: Focus
    /** The `isDragging` ref and the `dragStart` ref. */
    var dragging: bool
    var dragStart: Point
    /** The x where the current drag began, and the deltas forwarded since then. */
    ghost var pressX: real
    ghost var forwarded: seq<real>

    ghost predicate Valid()
      reads this, engine
    {
      && |engine.theta| == |products|
      && engine.friction == Friction && engine.idle == Idle
      && FocusInRange(focus, |products|)
      && Sum(forwarded) == dragStart.x - pressX
    }

    /** Whether the card at `index` is hovered or keyboard-focused. */
    function Highlighted(index: nat): bool
      reads this
      requires index < |products|
    {
      hoveredId == Some(products[index].id) || focus == Index(index)
    }

    /** The style of the card at `index` whose angle has sine `depth`. */
    function CardStyle(index: nat, depth: real): Projection.Style
      reads this
      requires index < |products|
    {
      Projection.ItemStyle(depth, Highlighted(index))
    }

    /** First render: an 800 × 500 container, nothing hovered, no focus, not dragging. */
    constructor (products: seq<Product>)
      ensures Valid()
      ensures this.products == products && fresh(engine)
      ensures engine.theta == Orbit.InitialAngles(|products|)
      ensures engine.speed == Idle && engine.lastInteraction == 0
      ensures width == 800.0 && height == 500.0
      ensures hoveredId == None && focus == NoFocus
      ensures !dragging && dragStart == Point(0.0, 0.0)
    {
      this.products := products;
      engine := new Orbit.Engine(|products|, Friction, Idle);
      width, height := 800.0, 500.0;
      hoveredId := None;
      focus := NoFocus;
      dragging := false;
      dragStart := Point(0.0, 0.0);
      pressX := 0.0;
      forwarded := [];
    }

    /** The resize listener: only the container size changes, never the motion or a drag. */
    method Resize(clientWidth: real, clientHeight: real)
      requires Valid()
      modifies this`width, this`height
      ensures Valid()
      ensures width == clientWidth && height == clientHeight
    {
      width, height := clientWidth, clientHeight;
    }

    /**
     * The mount effects: the engine stamps the interaction time, and the container is measured
     * once when it is attached (`container` is its client size, `None` when the ref is empty).
     * Nothing else changes, so the motion, focus, hover and drag state stay as first rendered.
     */
    method Mount(now: int, container: Option<(real, real)>)
      requires Valid()
      modifies this`width, this`height, engine`lastInteraction
      ensures Valid()
      ensures engine.lastInteraction == now
      ensures container.Some? ==> width == container.value.0 && height == container.value.1
      ensures container.None? ==> width == old(width) && height == old(height)
    {
      engine.MarkMounted(now);
      if container.Some? {
        width, height := container.value.0, container.value.1;
      }
    }

    /** Mouse press: enter drag mode and record the point. */
    method MouseDown(at: Point)
      requires Valid()
      modifies this`dragging, this`dragStart, this`pressX, this`forwarded
      ensures Valid()
      ensures dragging && dragStart == at
      ensures pressX == at.x && forwarded == []
    {
      dragging := true;
      dragStart := at;
      pressX := at.x;
      forwarded := [];
    }

    /**
     * Mouse move: outside drag mode nothing happens; in drag mode the x-distance from the last
     * recorded point becomes a drag impulse and the point is recorded.
     */
    method MouseMove(at: Point, now: int)
      requires Valid()
      modifies this`dragStart, this`forwarded, engine`speed, engine`lastInteraction
      ensures Valid()
      ensures !old(dragging) ==> unchanged(this) && unchanged(engine)
      ensures old(dragging) ==>
                && engine.speed == old(engine.speed) + (at.x - old(dragStart.x)) * Orbit.DragGain
                && engine.lastInteraction == now
                && dragStart == at
                && forwarded == old(forwarded) + [at.x - old(dragStart.x)]
    {
      if !dragging {
        return;
      }
      var deltaX := at.x - dragStart.x;
      engine.OnDrag(deltaX, now);
      SumAppend(forwarded, deltaX);
      forwarded := forwarded + [deltaX];
      dragStart := at;
    }

    /** Mouse up, mouse leave and touch end all leave drag mode. */
    method EndDragging()
      requires Valid()
      modifies this`dragging
      ensures Valid()
      ensures !dragging
    {
      dragging := false;
    }

    /** Touch start: like a mouse press, at the first touch point. */
    method TouchStart(touches: seq<Point>)
      requires Valid()
      requires |touches| > 0
      modifies this`dragging, this`dragStart, this`pressX, this`forwarded
      ensures Valid()
      ensures dragging && dragStart == touches[0]
      ensures pressX == touches[0].x && forwarded == []
    {
      MouseDown(touches[0]);
    }

    /** Touch move: like a mouse move, at the first touch point. */
    method TouchMove(touches: seq<Point>, now: int)
      requires Valid()
      requires |touches| > 0
      modifies this`dragStart, this`forwarded, engine`speed, engine`lastInteraction
      ensures Valid()
      ensures !old(dragging) ==> unchanged(this) && unchanged(engine)
      ensures old(dragging) ==>
                && engine.speed == old(engine.speed) + (touches[0].x - old(dragStart.x)) * Orbit.DragGain
                && engine.lastInteraction == now
                && dragStart == touches[0]
                && forwarded == old(forwarded) + [touches[0].x - old(dragStart.x)]
    {
      MouseMove(touches[0], now);
    }

    /** Every wheel event's vertical delta becomes a wheel impulse. */
    method Wheel(deltaY: real, now: int)
      requires Valid()
      modifies engine`speed, engine`lastInteraction
      ensures Valid()
      ensures engine.speed == old(engine.speed) + deltaY * Orbit.WheelGain
      ensures engine.lastInteraction == now
    {
      engine.OnWheel(deltaY, now);
    }

    /**
     * A key press.  The arrows give a keyboard impulse and move the focus cursor with wrap-around;
     * Enter selects the focused product when there is one; any other key changes nothing.
     */
    method KeyDown(key: Key, now: int) returns (selected: Option<Product>)
      requires Valid()
      modifies this`focus, engine`speed, engine`lastInteraction
      ensures Valid()
      ensures key == ArrowLeft ==>
                && engine.speed == old(engine.speed) + -1.0 * Orbit.KeyGain
                && engine.lastInteraction == now
                && focus == FocusLeft(old(focus), |products|)
                && selected == None
      ensures key == ArrowRight ==>
                && engine.speed == old(engine.speed) + 1.0 * Orbit.KeyGain
                && engine.lastInteraction == now
                && focus == FocusRight(old(focus), |products|)
                && selected == None
      ensures key == Enter ==>
                && unchanged(this) && unchanged(engine)
                && (if focus.Index? && focus.i >= 0 then selected == Some(products[focus.i]) else selected == None)
      ensures key == OtherKey ==> unchanged(this) && unchanged(engine) && selected == None
    {
      ArrowsStayInRange(focus, |products|);
      selected := None;
      if key == ArrowLeft {
        engine.OnKeyboard(-1.0, now);
        focus := FocusLeft(focus, |products|);
      } else if key == ArrowRight {
        engine.OnKeyboard(1.0, now);
        focus := FocusRight(focus, |products|);
      } else if key == Enter && focus.Index? && focus.i >= 0 {
        selected := Some(products[focus.i]);
      }
    }

    /** The mouse enters a card. */
    method HoverCard(index: nat)
      requires Valid()
      requires index < |products|
      modifies this`hoveredId
      ensures Valid()
      ensures hoveredId == Some(products[index].id)
    {
      hoveredId := Some(products[index].id);
    }

    /** The mouse leaves a card: no card is hovered any more. */
    method UnhoverCard()
      requires Valid()
      modifies this`hoveredId
      ensures Valid()
      ensures hoveredId == None
    {
      hoveredId := None;
    }

    /** A card receives keyboard focus: it becomes the focused index. */
    method FocusCard(index: nat)
      requires Valid()
      requires index < |products|
      modifies this`focus
      ensures Valid()
      ensures focus == Index(index) && Highlighted(index)
    {
      focus := Index(index);
    }
  }

  /**
   * A hovered or focused card is enlarged, fully opaque and drawn above every card that is
   * neither, for any depths in [-1, 1].
   */
  lemma HighlightedCardOnTop(c: OrbitCarousel, index: nat, other: nat, depth: real, otherDepth: real)
    requires index < |c.products| && other < |c.products|
    requires c.Highlighted(index) && !c.Highlighted(other)
    requires -1.0 <= otherDepth <= 1.0
    ensures c.CardStyle(index, depth).zIndex > c.CardStyle(other, otherDepth).zIndex
    ensures c.CardStyle(index, depth).opacity == 1.0
    ensures c.CardStyle(index, depth).scale == Projection.Scale(depth) * Projection.HighlightScale
    ensures c.CardStyle(other, otherDepth) == Projection.DepthStyle(otherDepth)
  {
    Projection.HighlightIsOnTop(depth, otherDepth);
  }
}
