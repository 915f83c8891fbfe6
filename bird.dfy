/** The bird: vertical kinematics after a flap, terminal velocity, the
    2-pixel bias on upward steps, and the nose tilt. */
module BirdPhysics {

  const MAX_ROTATION: int := 25
  const ROT_VEL: int := 20
  /** Tilt is only stepped down while it is above this angle. */
  const NOSE_DIVE: int := -90
  /** Velocity set by a flap (negative is upward on screen). */
  const JUMP_VEL: real := -10.5
  /** Coefficient of the squared tick count in the displacement. */
  const ACCEL: real := 1.5
  const TERMINAL: real := 16.0
  const UP_BIAS: real := 2.0
  /** The bird keeps its nose up until it falls this far below the height it flapped from. */
  const TILT_MARGIN: real := 50.0

  /** The lowest tilt reachable from the range below: one ROT_VEL step under NOSE_DIVE. */
  const MIN_TILT: int := NOSE_DIVE - ROT_VEL

  datatype BirdState = BirdState(x: int, y: real, tilt: int, tickCount: nat, vel: real, height: real)

  function Abs(r: real): real {
    if r < 0.0 then -r else r
  }

  /** Tilt within [MIN_TILT, MAX_ROTATION]. */
  predicate TiltInRange(s: BirdState) {
    MIN_TILT <= s.tilt <= MAX_ROTATION
  }

  /** `vel * t + 1.5 * t ** 2`, before the cap and the bias. */
  function Raw(vel: real, t: nat): real {
    vel * t as real + ACCEL * (t * t) as real
  }

  /** Pixels moved in the t-th tick since the last flap. */
  function Displacement(vel: real, t: nat): (d: real)
    ensures d <= TERMINAL
    ensures d < 0.0 ==> d <= -UP_BIAS
    ensures Raw(vel, t) >= 0.0 ==> d == (if Raw(vel, t) >= TERMINAL then TERMINAL else Raw(vel, t))
    ensures Raw(vel, t) < 0.0 ==> d == Raw(vel, t) - UP_BIAS
  {
    var raw := Raw(vel, t);
    var capped := if raw >= TERMINAL then (assert raw / Abs(raw) == 1.0; raw / Abs(raw) * TERMINAL) else raw;
    if capped < 0.0 then capped - UP_BIAS else capped
  }

  /** State after `jump`. */
  function Jumped(s: BirdState): BirdState {
    s.(vel := JUMP_VEL, tickCount := 0, height := s.y)
  }

  /** New tilt after a step of d that left the bird at y. */
  function NextTilt(s: BirdState, d: real, y: real): int {
    if d < 0.0 || y < s.height + TILT_MARGIN then
      if s.tilt < MAX_ROTATION then MAX_ROTATION else s.tilt
    else if s.tilt > NOSE_DIVE then s.tilt - ROT_VEL
    else s.tilt
  }

  /** State after `move`. */
  function Moved(s: BirdState): (r: BirdState)
    ensures r.tickCount == s.tickCount + 1
    ensures r.x == s.x && r.vel == s.vel && r.height == s.height
    ensures r.y - s.y <= TERMINAL
    ensures r.y < s.y ==> r.y <= s.y - UP_BIAS
  {
    var t := s.tickCount + 1;
    var d := Displacement(s.vel, t);
    var y := s.y + d;
    s.(y := y, tilt := NextTilt(s, d, y), tickCount := t)
  }

  /** A flap sets the velocity, restarts the tick counter, records the height
      and changes nothing else; flapping twice is flapping once. */
  lemma JumpResets(s: BirdState)
    ensures Jumped(s).vel == JUMP_VEL && Jumped(s).tickCount == 0 && Jumped(s).height == s.y
    ensures Jumped(s).x == s.x && Jumped(s).y == s.y && Jumped(s).tilt == s.tilt
    ensures Jumped(Jumped(s)) == Jumped(s)
  {
  }

  /** The tilt rule of `move`: nose up to exactly MAX_ROTATION while rising
      or above the margin, otherwise down by exactly ROT_VEL while above
      NOSE_DIVE, and never outside [MIN_TILT, MAX_ROTATION]. */
  lemma TiltRule(s: BirdState)
    requires TiltInRange(s)
    ensures TiltInRange(Moved(s))
    ensures var r := Moved(s);
      (r.y < s.y || r.y < s.height + TILT_MARGIN) ==> r.tilt == MAX_ROTATION
    ensures var r := Moved(s);
      !(r.y < s.y || r.y < s.height + TILT_MARGIN) ==>
        r.tilt == (if s.tilt > NOSE_DIVE then s.tilt - ROT_VEL else s.tilt)
  {
  }

  /** The state after n ticks without a flap. */
  function Glide(s: BirdState, n: nat): BirdState
    decreases n
  {
    if n == 0 then s else Moved(Glide(s, n - 1))
  }

  /** Over any number of ticks without a flap the bird stays in its column,
      counts every tick, and keeps its tilt in range. */
  lemma {:induction false} GlideInvariant(s: BirdState, n: nat)
    requires TiltInRange(s)
    ensures Glide(s, n).x == s.x && Glide(s, n).tickCount == s.tickCount + n
    ensures Glide(s, n).vel == s.vel && Glide(s, n).height == s.height
    ensures TiltInRange(Glide(s, n))
  {
    if n > 0 {
      GlideInvariant(s, n - 1);
      TiltRule(Glide(s, n - 1));
    }
  }

  /** Falling from rest, each tick moves the bird down by 1.5 t squared
      pixels, capped at TERMINAL: never up, never more than TERMINAL. */
  lemma FreeFall(s: BirdState, n: nat)
    requires s.vel == 0.0 && s.tickCount == 0
    ensures var before, after := Glide(s, n), Glide(s, n + 1);
      var t := n + 1;
      after.y - before.y == (if ACCEL * (t * t) as real >= TERMINAL then TERMINAL else ACCEL * (t * t) as real)
    ensures 0.0 < Glide(s, n + 1).y - Glide(s, n).y <= TERMINAL
  {
    GlideSameKinematics(s, n);
    var t := n + 1;
    assert t * t >= 1 by {
      assert t * t >= t;
    }
    assert Raw(0.0, t) == ACCEL * (t * t) as real;
  }

  /** The kinematic part of a glide does not depend on the tilt. */
  lemma {:induction false} GlideSameKinematics(s: BirdState, n: nat)
    ensures Glide(s, n).tickCount == s.tickCount + n
    ensures Glide(s, n).vel == s.vel && Glide(s, n).x == s.x && Glide(s, n).height == s.height
  {
    if n > 0 {
      GlideSameKinematics(s, n - 1);
    }
  }

  /** One more tick of a glide moves the bird by the displacement of that tick. */
  lemma GlideStep(s: BirdState, n: nat)
    ensures Glide(s, n + 1).y == Glide(s, n).y + Displacement(s.vel, s.tickCount + n + 1)
  {
    GlideSameKinematics(s, n);
  }

  /** After a flap the bird rises for six ticks (by 11, 17, 20, 20, 17 and
      11 pixels), stands still in the seventh and falls from the eighth on. */
  lemma FlapArc(s: BirdState)
    ensures var j := Jumped(s);
      Glide(j, 1).y == s.y - 11.0 && Glide(j, 2).y == s.y - 28.0 && Glide(j, 3).y == s.y - 48.0 &&
      Glide(j, 4).y == s.y - 68.0 && Glide(j, 5).y == s.y - 85.0 && Glide(j, 6).y == s.y - 96.0 &&
      Glide(j, 7).y == s.y - 96.0 && Glide(j, 8).y == s.y - 84.0
  {
    var j := Jumped(s);
    assert Glide(j, 1).y == s.y - 11.0 by {
      GlideStep(j, 0);
      assert Raw(JUMP_VEL, 1) == -9.0;
    }
    assert Glide(j, 2).y == s.y - 28.0 by {
      GlideStep(j, 1);
      assert Raw(JUMP_VEL, 2) == -15.0;
    }
    assert Glide(j, 3).y == s.y - 48.0 by {
      GlideStep(j, 2);
      assert Raw(JUMP_VEL, 3) == -18.0;
    }
    assert Glide(j, 4).y == s.y - 68.0 by {
      GlideStep(j, 3);
      assert Raw(JUMP_VEL, 4) == -18.0;
    }
    assert Glide(j, 5).y == s.y - 85.0 by {
      GlideStep(j, 4);
      assert Raw(JUMP_VEL, 5) == -15.0;
    }
    assert Glide(j, 6).y == s.y - 96.0 by {
      GlideStep(j, 5);
      assert Raw(JUMP_VEL, 6) == -9.0;
    }
    assert Glide(j, 7).y == s.y - 96.0 by {
      GlideStep(j, 6);
      assert Raw(JUMP_VEL, 7) == 0.0;
    }
    assert Glide(j, 8).y == s.y - 84.0 by {
      GlideStep(j, 7);
      assert Raw(JUMP_VEL, 8) == 12.0;
    }
  }

  /** A bird of the simulation, updated in place by `jump` and `move`. */
  class Bird {
    var x: int
    var y: real
    var tilt: int
    var tickCount: nat
    var vel: real
    var height: real

    function State(): BirdState
      reads this
    {
      BirdState(x, y, tilt, tickCount, vel, height)
    }

    constructor (x0: int, y0: int)
      ensures State() == BirdState(x0, y0 as real, 0, 0, 0.0, y0 as real)
      ensures TiltInRange(State())
    {
      x := x0;
      y := y0 as real;
      tilt := 0;
      tickCount := 0;
      vel := 0.0;
      height := y0 as real;
    }

    method Jump()
      modifies this
      ensures State() == Jumped(old(State()))
      ensures vel == JUMP_VEL && tickCount == 0 && height == y
    {
      vel := JUMP_VEL;
      tickCount := 0;
      height := y;
    }

    method Move()
      modifies this
      ensures State() == Moved(old(State()))
      ensures x == old(x) && tickCount == old(tickCount) + 1
    {
      tickCount := tickCount + 1;
      var d := vel * tickCount as real + ACCEL * (tickCount * tickCount) as real;
      if d >= TERMINAL {
        d := d / Abs(d) * TERMINAL;
      }
      if d < 0.0 {
        d := d - UP_BIAS;
      }
      y := y + d;
      if d < 0.0 || y < height + TILT_MARGIN {
        if tilt < MAX_ROTATION {
          tilt := MAX_ROTATION;
        }
      } else {
        if tilt > NOSE_DIVE {
          tilt := tilt - ROT_VEL;
        }
      }
    }
  }
}
