/** The single ball of server/main.js: it moves by its velocity and stays
    on the canvas, with no maze walls; the device tilt sets its velocity. */
module Solo {
  import opened Physics
  import Tilt

  /** Degrees of tilt that give the full speed. */
  const MaxTilt: real := 45.0
  /** Speed, in pixels per step, at `MaxTilt`. */
  const FullSpeed: real := 5.0

  class SoloBall {
    var x: real
    var y: real
    var radius: real
    var color: string
    var dx: real
    var dy: real

    function State(): Motion
      reads this
    {
      Motion(x, y, dx, dy)
    }

    /** The module-level `ball`: blue, radius 15, at rest in the middle of
        the canvas. */
    constructor (width: nat, height: nat)
      ensures x == width as real / 2.0 && y == height as real / 2.0
      ensures radius == 15.0 && color == "blue" && dx == 0.0 && dy == 0.0
    {
      x := width as real / 2.0;
      y := height as real / 2.0;
      radius := 15.0;
      color := "blue";
      dx := 0.0;
      dy := 0.0;
    }

    /** `updateBallPosition`: move by the velocity, then clamp to the
        canvas; velocity, radius and colour are kept. */
    method UpdateBallPosition(width: nat, height: nat)
      modifies this
      ensures State() == Advance(old(State()), radius, width, height)
      ensures radius == old(radius) && color == old(color)
    {
      x := x + dx;
      y := y + dy;

      if x < radius { x := radius; }
      if x > width as real - radius { x := width as real - radius; }
      if y < radius { y := radius; }
      if y > height as real - radius { y := height as real - radius; }
    }

    /** `handleOrientation`: the side-to-side tilt `gamma` sets `dx`, the
        front-to-back tilt `beta` sets `dy`, scaled without any limit. */
    method HandleOrientation(beta: real, gamma: real)
      modifies this
      ensures dx == Tilt.TiltSpeed(gamma, MaxTilt, FullSpeed)
      ensures dy == Tilt.TiltSpeed(beta, MaxTilt, FullSpeed)
      ensures x == old(x) && y == old(y) && radius == old(radius) && color == old(color)
    {
      dx := gamma / MaxTilt * FullSpeed;
      dy := beta / MaxTilt * FullSpeed;
    }
  }

  /** The speed set by `handleOrientation` exceeds `FullSpeed` exactly when
      the device is tilted more than `MaxTilt` either way: nothing limits it. */
  lemma OrientationSpeed(angle: real)
    ensures -FullSpeed <= Tilt.TiltSpeed(angle, MaxTilt, FullSpeed) <= FullSpeed <==> -MaxTilt <= angle <= MaxTilt
  {
    Tilt.TiltWithinSpeed(angle, MaxTilt, FullSpeed);
  }
}
