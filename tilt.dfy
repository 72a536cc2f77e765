/** Turning a device tilt into a ball speed: `handleOrientation` in
    script.js scales the angle and limits the result to the maximum speed;
    the one in server/main.js only scales it. */
module Tilt {

  /** `angle / maxTilt * maxSpeed`: level gives no speed, a tilt of
      `maxTilt` either way gives `maxSpeed` that way, and with both limits
      positive the speed has the sign of the angle. */
  function TiltSpeed(angle: real, maxTilt: real, maxSpeed: real): (v: real)
    requires maxTilt != 0.0
    ensures angle == 0.0 ==> v == 0.0
    ensures angle == maxTilt ==> v == maxSpeed
    ensures angle == -maxTilt ==> v == -maxSpeed
    ensures maxTilt > 0.0 && maxSpeed > 0.0 ==> (v > 0.0 <==> angle > 0.0) && (v < 0.0 <==> angle < 0.0)
  {
    angle / maxTilt * maxSpeed
  }

  function Min(a: real, b: real): real {
    if a <= b then a else b
  }

  function Max(a: real, b: real): real {
    if a >= b then a else b
  }

  /** `Math.max(-maxSpeed, Math.min(maxSpeed, v))`. */
  function LimitSpeed(v: real, maxSpeed: real): (r: real)
    ensures 0.0 <= maxSpeed ==> -maxSpeed <= r <= maxSpeed
    ensures 0.0 <= maxSpeed ==> (r == v <==> -maxSpeed <= v <= maxSpeed)
    ensures v > maxSpeed >= 0.0 ==> r == maxSpeed
    ensures v < -maxSpeed <= 0.0 ==> r == -maxSpeed
  {
    Max(-maxSpeed, Min(maxSpeed, v))
  }

  /** Scaling by `maxSpeed / maxTilt` maps the tilt range onto the speed
      range: the speed is within `maxSpeed` exactly when the angle is
      within `maxTilt`. */
  lemma {:induction false} TiltWithinSpeed(angle: real, maxTilt: real, maxSpeed: real)
    requires maxTilt > 0.0 && maxSpeed > 0.0
    ensures -maxSpeed <= TiltSpeed(angle, maxTilt, maxSpeed) <= maxSpeed <==> -maxTilt <= angle <= maxTilt
  {
    var k := maxSpeed / maxTilt;
    assert k > 0.0;
    assert TiltSpeed(angle, maxTilt, maxSpeed) == angle * k;
    assert maxTilt * k == maxSpeed;
    ScaleKeepsOrder(angle, maxTilt, k);
    ScaleKeepsOrder(-maxTilt, angle, k);
  }

  /** Multiplying by a positive factor keeps `<=` in both directions. */
  lemma ScaleKeepsOrder(a: real, b: real, k: real)
    requires k > 0.0
    ensures a <= b <==> a * k <= b * k
  {
    assert (b - a) * k == b * k - a * k;
    if a <= b {
      assert (b - a) * k >= 0.0;
    } else {
      assert (a - b) * k > 0.0;
    }
  }

  /** In script.js the limit leaves the scaled tilt untouched exactly when
      the device is tilted no more than `maxTilt`. */
  lemma LimitKeepsTilt(angle: real, maxTilt: real, maxSpeed: real)
    requires maxTilt > 0.0 && maxSpeed > 0.0
    ensures var v := TiltSpeed(angle, maxTilt, maxSpeed);
            LimitSpeed(v, maxSpeed) == v <==> -maxTilt <= angle <= maxTilt
  {
    TiltWithinSpeed(angle, maxTilt, maxSpeed);
  }
}
