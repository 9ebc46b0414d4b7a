/**
 * The orbit motion engine of the carousel (the `useOrbit` hook): one angle per item, one shared
 * angular speed and the time of the last user interaction.  Every animation frame shifts all angles
 * by the speed and then either snaps the speed back to the idle drift (after more than three
 * seconds without interaction) or lets friction decay it while it is faster than the idle drift.
 *
 * JavaScript doubles are modelled as `real`, `Date.now()` as an `int` of milliseconds passed in
 * explicitly, and the self-rescheduling animation-frame loop as one `Tick` call per frame.
 */
module Orbit {

  /** `Math.PI` */
  const Pi: real := 3.141592653589793

  /** Milliseconds without interaction after which the speed snaps back to the idle drift. */
  const ResetAfterMs: int := 3000

  /** Speed added per pixel of horizontal drag. */
  const DragGain: real := 0.002
  /** Speed added per unit of vertical wheel delta. */
  const WheelGain: real := 0.0001
  /** Speed added per arrow-key press (times the direction, -1 or 1). */
  const KeyGain: real := 0.01

  function Abs(x: real): (r: real)
    ensures r >= 0.0 && (r == x || r == -x)
  {
    if x < 0.0 then -x else x
  }

  /** The angles an engine for `itemCount` items starts with: `index * 2π / itemCount`. */
  function InitialAngles(itemCount: nat): (angles: seq<real>)
    ensures |angles| == itemCount
  {
    seq(itemCount, index requires 0 <= index < itemCount => (index as real) * 2.0 * Pi / (itemCount as real))
  }

  /** The items start evenly spaced around the full circle, the first one at angle 0. */
  lemma EvenlySpaced(itemCount: nat)
    ensures itemCount == 0 ==> InitialAngles(itemCount) == []
    ensures itemCount > 0 ==> InitialAngles(itemCount)[0] == 0.0
    ensures forall index :: 0 <= index < itemCount ==>
              InitialAngles(itemCount)[index] == (index as real) * (2.0 * Pi / (itemCount as real))
    ensures forall index :: 0 <= index < itemCount ==>
              0.0 <= InitialAngles(itemCount)[index] < 2.0 * Pi
    ensures forall index :: 0 <= index < itemCount - 1 ==>
              InitialAngles(itemCount)[index + 1] - InitialAngles(itemCount)[index] == 2.0 * Pi / (itemCount as real)
  {
    var angles := InitialAngles(itemCount);
    if itemCount > 0 {
      var n := itemCount as real;
      var step := 2.0 * Pi / n;
      forall index | 0 <= index < itemCount
        ensures angles[index] == (index as real) * step
        ensures 0.0 <= angles[index] < 2.0 * Pi
      {
        var k := index as real;
        assert angles[index] == k * 2.0 * Pi / n;
        assert k * 2.0 * Pi / n == k * step;
        assert k * step < n * step by {
          assert step > 0.0;
          assert k < n;
        }
        assert n * step == 2.0 * Pi;
      }
    }
  }

  /** Every angle moved by the same amount: the `theta.map(angle => angle + delta)` of a frame. */
  function Shift(angles: seq<real>, delta: real): (shifted: seq<real>)
    ensures |shifted| == |angles|
  {
    seq(|angles|, index requires 0 <= index < |angles| => angles[index] + delta)
  }

  /** Shifting preserves every pairwise distance: the ring turns as one rigid body. */
  lemma ShiftIsRigid(angles: seq<real>, delta: real)
    ensures |Shift(angles, delta)| == |angles|
    ensures forall i, j :: 0 <= i < |angles| && 0 <= j < |angles| ==>
              Shift(angles, delta)[i] - Shift(angles, delta)[j] == angles[i] - angles[j]
    ensures forall i :: 0 <= i < |angles| ==> Shift(angles, delta)[i] - angles[i] == delta
  {
  }

  /** Two shifts are one shift by the sum. */
  lemma ShiftCompose(angles: seq<real>, first: real, second: real)
    ensures Shift(Shift(angles, first), second) == Shift(angles, first + second)
  {
  }

  /** Which speed rule one frame applies. */
  datatype Regime = Reset | Decay | Hold

  /**
   * The two-regime rule: more than `ResetAfterMs` since the last interaction resets, otherwise
   * friction applies while the speed is faster than the idle drift (compared by magnitude).
   */
  function RegimeOf(elapsed: int, speed: real, idle: real): Regime
  {
    if elapsed > ResetAfterMs then Reset
    else if Abs(speed) > Abs(idle) then Decay
    else Hold
  }

  /** The speed after one frame whose elapsed time since the last interaction is `elapsed`. */
  function NextSpeed(speed: real, elapsed: int, idle: real, friction: real): real
  {
    match RegimeOf(elapsed, speed, idle)
    case Reset => idle
    case Decay => speed * friction
    case Hold => speed
  }

  /** The reset test is strict: exactly 3000 ms keeps the friction rule, 3001 ms resets. */
  lemma ThresholdIsStrict(speed: real, idle: real, friction: real)
    ensures RegimeOf(3000, speed, idle) != Reset
    ensures RegimeOf(3001, speed, idle) == Reset
    ensures NextSpeed(speed, 3001, idle, friction) == idle
  {
  }

  /** A reset lands exactly on the idle speed, whatever the sign or size of the current speed. */
  lemma ResetIsExact(speed: real, elapsed: int, idle: real, friction: real)
    requires elapsed > ResetAfterMs
    ensures NextSpeed(speed, elapsed, idle, friction) == idle
  {
  }

  /**
   * With a friction factor in (0, 1) a decay frame makes the speed strictly slower without
   * changing its direction; a hold frame leaves it alone.
   */
  lemma DecayStep(speed: real, elapsed: int, idle: real, friction: real)
    requires elapsed <= ResetAfterMs
    requires 0.0 < friction < 1.0
    ensures Abs(speed) > Abs(idle) ==>
              Abs(NextSpeed(speed, elapsed, idle, friction)) < Abs(speed)
    ensures Abs(speed) <= Abs(idle) ==> NextSpeed(speed, elapsed, idle, friction) == speed
    ensures speed > 0.0 ==> NextSpeed(speed, elapsed, idle, friction) > 0.0
    ensures speed < 0.0 ==> NextSpeed(speed, elapsed, idle, friction) < 0.0
    ensures speed == 0.0 ==> NextSpeed(speed, elapsed, idle, friction) == 0.0
  {
    if Abs(speed) > Abs(idle) {
      ScaleShrinks(speed, friction, NextSpeed(speed, elapsed, idle, friction));
    }
  }

  /** Multiplying by a factor in (0, 1) moves a nonzero number strictly toward zero. */
  lemma ScaleShrinks(x: real, factor: real, scaled: real)
    requires 0.0 < factor < 1.0
    requires scaled == x * factor
    ensures x > 0.0 ==> 0.0 < scaled < x
    ensures x < 0.0 ==> x < scaled < 0.0
  {
    var rest := 1.0 - factor;
    assert x - scaled == x * rest;
    if x > 0.0 {
      ProductOfPositives(x, factor);
      ProductOfPositives(x, rest);
    } else if x < 0.0 {
      ProductOfPositives(-x, factor);
      ProductOfPositives(-x, rest);
      assert (-x) * factor == -scaled;
      assert (-x) * rest == -(x * rest);
    }
  }

  lemma ProductOfPositives(a: real, b: real)
    requires a > 0.0 && b > 0.0
    ensures a * b > 0.0
  {
  }

  /** What the engine holds between frames, as a value. */
  datatype Motion = Motion(theta: seq<real>, speed: real)

  /** One frame: the angles move by the speed read before the speed rule is applied. */
  function Advance(m: Motion, elapsed: int, idle: real, friction: real): Motion
  {
    Motion(Shift(m.theta, m.speed), NextSpeed(m.speed, elapsed, idle, friction))
  }

  /** A run of frames; `elapsed[k]` is the time since the last interaction at frame `k`. */
  function Run(m: Motion, elapsed: seq<int>, idle: real, friction: real): Motion
    decreases |elapsed|
  {
    if elapsed == [] then m
    else Run(Advance(m, elapsed[0], idle, friction), elapsed[1..], idle, friction)
  }

  /** The speed at the end of a run of frames. */
  function SpeedAfter(speed: real, elapsed: seq<int>, idle: real, friction: real): real
    decreases |elapsed|
  {
    if elapsed == [] then speed
    else SpeedAfter(NextSpeed(speed, elapsed[0], idle, friction), elapsed[1..], idle, friction)
  }

  /** How far every angle travels over a run of frames: the sum of the speeds the frames read. */
  function Travel(speed: real, elapsed: seq<int>, idle: real, friction: real): real
    decreases |elapsed|
  {
    if elapsed == [] then 0.0
    else speed + Travel(NextSpeed(speed, elapsed[0], idle, friction), elapsed[1..], idle, friction)
  }

  /**
   * Any run of frames keeps one angle per item and moves all of them by the same distance,
   * `Travel`, ending at speed `SpeedAfter`: items never get speeds of their own.
   */
  lemma {:induction false} RunIsRigidRotation(m: Motion, elapsed: seq<int>, idle: real, friction: real)
    ensures Run(m, elapsed, idle, friction) ==
            Motion(Shift(m.theta, Travel(m.speed, elapsed, idle, friction)),
                   SpeedAfter(m.speed, elapsed, idle, friction))
    decreases |elapsed|
  {
    if elapsed == [] {
      assert Shift(m.theta, 0.0) == m.theta;
    } else {
      var next := Advance(m, elapsed[0], idle, friction);
      RunIsRigidRotation(next, elapsed[1..], idle, friction);
      ShiftCompose(m.theta, m.speed, Travel(next.speed, elapsed[1..], idle, friction));
    }
  }

  /** Within the interaction window a speed no faster than idle is a fixed point of every frame. */
  lemma {:induction false} HoldIsFixedPoint(speed: real, elapsed: seq<int>, idle: real, friction: real)
    requires Abs(speed) <= Abs(idle)
    requires forall k :: 0 <= k < |elapsed| ==> elapsed[k] <= ResetAfterMs
    ensures SpeedAfter(speed, elapsed, idle, friction) == speed
    ensures Travel(speed, elapsed, idle, friction) == (|elapsed| as real) * speed
    decreases |elapsed|
  {
    if elapsed != [] {
      assert NextSpeed(speed, elapsed[0], idle, friction) == speed;
      HoldIsFixedPoint(speed, elapsed[1..], idle, friction);
    }
  }

  /**
   * Within the interaction window friction in (0, 1) never speeds the ring up and never
   * reverses it: the speed keeps its sign and its magnitude does not grow.
   */
  lemma {:induction false} WindowNeverSpeedsUp(speed: real, elapsed: seq<int>, idle: real, friction: real)
    requires 0.0 < friction < 1.0
    requires forall k :: 0 <= k < |elapsed| ==> elapsed[k] <= ResetAfterMs
    ensures Abs(SpeedAfter(speed, elapsed, idle, friction)) <= Abs(speed)
    ensures speed > 0.0 ==> SpeedAfter(speed, elapsed, idle, friction) > 0.0
    ensures speed < 0.0 ==> SpeedAfter(speed, elapsed, idle, friction) < 0.0
    ensures speed == 0.0 ==> SpeedAfter(speed, elapsed, idle, friction) == 0.0
    decreases |elapsed|
  {
    if elapsed != [] {
      DecayStep(speed, elapsed[0], idle, friction);
      WindowNeverSpeedsUp(NextSpeed(speed, elapsed[0], idle, friction), elapsed[1..], idle, friction);
    }
  }

  /** A run whose last frame comes more than three seconds after the last interaction ends at idle. */
  lemma {:induction false} LastFrameResets(speed: real, elapsed: seq<int>, idle: real, friction: real)
    requires elapsed != [] && elapsed[|elapsed| - 1] > ResetAfterMs
    ensures SpeedAfter(speed, elapsed, idle, friction) == idle
    decreases |elapsed|
  {
    if |elapsed| > 1 {
      LastFrameResets(NextSpeed(speed, elapsed[0], idle, friction), elapsed[1..], idle, friction);
    }
  }

  /**
   * Steady drift: when every frame is past the three-second window, the first frame moves the
   * ring by the speed it had and every later frame by exactly the idle speed.
   */
  lemma {:induction false} IdleDrift(speed: real, elapsed: seq<int>, idle: real, friction: real)
    requires elapsed != []
    requires forall k :: 0 <= k < |elapsed| ==> elapsed[k] > ResetAfterMs
    ensures SpeedAfter(speed, elapsed, idle, friction) == idle
    ensures Travel(speed, elapsed, idle, friction) == speed + ((|elapsed| - 1) as real) * idle
    decreases |elapsed|
  {
    if |elapsed| > 1 {
      IdleDrift(idle, elapsed[1..], idle, friction);
    }
  }

  /**
   * The engine of one carousel.  `speed` and `lastInteraction` are the hook's refs, `theta` its
   * state; `friction` and `idle` are the options it was created with.
   */
  class Engine {
    var theta: seq<real>
    var speed: real
    var lastInteraction: int
    const friction: real
    const idle: real

    /** The engine as a value, for stating what a frame does. */
    function Snapshot(): Motion
      reads this
    {
      Motion(theta, speed)
    }

    /**
     * First render: evenly spaced angles, the idle speed, and the interaction ref at 0 (the mount
     * effect stamps the real time afterwards, see `MarkMounted`).
     */
    constructor (itemCount: nat, friction: real, idle: real)
      ensures theta == InitialAngles(itemCount)
      ensures speed == idle && lastInteraction == 0
      ensures this.friction == friction && this.idle == idle
    {
      theta := InitialAngles(itemCount);
      speed := idle;
      lastInteraction := 0;
      this.friction := friction;
      this.idle := idle;
    }

    /** The mount effect: `lastInteraction.current = Date.now()`. */
    method MarkMounted(now: int)
      modifies this`lastInteraction
      ensures lastInteraction == now
    {
      lastInteraction := now;
    }

    /**
     * One animation frame at time `now`: all angles move by the current speed, then the speed
     * rule runs.  The last-interaction time is left alone.
     */
    method Tick(now: int)
      modifies this`theta, this`speed
      ensures Snapshot() == Advance(old(Snapshot()), now - lastInteraction, idle, friction)
      ensures |theta| == |old(theta)|
    {
      var timeSinceInteraction := now - lastInteraction;
      theta := Shift(theta, speed);
      if timeSinceInteraction > ResetAfterMs {
        speed := idle;
      } else if Abs(speed) > Abs(idle) {
        speed := speed * friction;
      }
    }

    /** A drag impulse of `deltaX` pixels: unclamped, and it stamps the interaction time. */
    method OnDrag(deltaX: real, now: int)
      modifies this`speed, this`lastInteraction
      ensures speed == old(speed) + deltaX * DragGain
      ensures lastInteraction == now
    {
      speed := speed + deltaX * DragGain;
      lastInteraction := now;
    }

    /** A wheel impulse of `deltaY`: unclamped, and it stamps the interaction time. */
    method OnWheel(deltaY: real, now: int)
      modifies this`speed, this`lastInteraction
      ensures speed == old(speed) + deltaY * WheelGain
      ensures lastInteraction == now
    {
      speed := speed + deltaY * WheelGain;
      lastInteraction := now;
    }

    /** A keyboard impulse in `direction` (-1 or 1 from the arrow keys): unclamped, stamps the time. */
    method OnKeyboard(direction: real, now: int)
      modifies this`speed, this`lastInteraction
      ensures speed == old(speed) + direction * KeyGain
      ensures lastInteraction == now
    {
      speed := speed + direction * KeyGain;
      lastInteraction := now;
    }
  }

  /**
   * After an impulse stamped at `now`, a frame at that same `now` (elapsed 0) is inside the
   * window, so it applies friction or holds; it never resets.
   */
  lemma ImpulseThenTickKeepsMomentum(speed: real, idle: real, friction: real)
    ensures RegimeOf(0, speed, idle) != Reset
    ensures NextSpeed(speed, 0, idle, friction) ==
            if Abs(speed) > Abs(idle) then speed * friction else speed
  {
  }

  /**
   * The end-to-end scenario of four items: after mounting, one right-arrow impulse and one frame,
   * every angle has moved by idle + 0.01 from its evenly spaced start.
   */
  method FourItemScenario(mountTime: int) returns (e: Engine)
    ensures fresh(e)
    ensures e.theta == [0.0108, Pi / 2.0 + 0.0108, Pi + 0.0108, 3.0 * Pi / 2.0 + 0.0108]
    ensures e.speed == 0.0108 * 0.96 && e.lastInteraction == mountTime + 10
  {
    e := new Engine(4, 0.96, 0.0008);
    e.MarkMounted(mountTime);
    EvenlySpaced(4);
    assert e.theta == [0.0, Pi / 2.0, Pi, 3.0 * Pi / 2.0];
    e.OnKeyboard(1.0, mountTime + 10);
    e.Tick(mountTime + 10);
    assert e.theta == [0.0 + 0.0108, Pi / 2.0 + 0.0108, Pi + 0.0108, 3.0 * Pi / 2.0 + 0.0108];
    assert e.speed == 0.0108 * 0.96;
  }
}
