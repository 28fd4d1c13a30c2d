/** The gameplay logic of `FlightZone`: the arrow sprite's pixel fill, the zone
    membership test, the bounce bookkeeping of the per-tick damping, and the
    stabilisation and lift forces with the bounds their clamps guarantee. Floats are
    carried as `real`; `Vector2.Distance`, `Mathf.Sqrt`, `Mathf.Pow`,
    `AnimationCurve.Evaluate` and `Physics.gravity.y` are parameters. */
module FlightZones {
  import opened UnityTypes

  // ---------------------------------------------------------------------------
  // Mathf
  // ---------------------------------------------------------------------------

  /** `Mathf.Abs` on an `int`. */
  function IntAbs(n: int): (r: nat)
    ensures r == n || r == -n
  {
    if n < 0 then -n else n
  }

  /** `Mathf.Abs` on a `float`. */
  function Abs(v: real): (r: real)
    ensures r >= 0.0 && (r == v || r == -v)
  {
    if v < 0.0 then -v else v
  }

  /** `Mathf.Sign`: 1 for zero and positive values, -1 for negative ones. */
  function Sign(v: real): (r: real)
    ensures r == 1.0 || r == -1.0
    ensures r * v == Abs(v)
  {
    if v >= 0.0 then 1.0 else -1.0
  }

  /** `Mathf.Clamp(value, min, max)`: `min` below it, else `max` above it, else `value`. */
  function Clamp(value: real, min: real, max: real): (r: real)
    ensures min <= max ==> min <= r <= max
    ensures min <= value <= max ==> r == value
    ensures r == value || r == min || r == max
  {
    if value < min then min else if value > max then max else value
  }

  /** `Mathf.Clamp01`. */
  function Clamp01(value: real): (r: real)
    ensures 0.0 <= r <= 1.0
    ensures 0.0 <= value <= 1.0 ==> r == value
  {
    Clamp(value, 0.0, 1.0)
  }

  /** `Mathf.Max(a, b)`: `a` when it is greater, else `b`. */
  function Max(a: real, b: real): (r: real)
    ensures r >= a && r >= b && (r == a || r == b)
  {
    if a > b then a else b
  }

  /** `Mathf.Min(a, b)`: `a` when it is smaller, else `b`. */
  function Min(a: real, b: real): (r: real)
    ensures r <= a && r <= b && (r == a || r == b)
  {
    if a < b then a else b
  }

  /** `Mathf.Clamp01(a / b)` on floats. A zero divisor gives an infinity of the sign of
      `a`, which clamps to 1 or 0; the quotient `0 / 0` is NaN, which this model replaces
      by 0. */
  function ClampedRatio(a: real, b: real): (r: real)
    ensures 0.0 <= r <= 1.0
    ensures b > 0.0 && 0.0 <= a <= b ==> r == a / b
  {
    if b != 0.0 then Clamp01(a / b)
    else if a > 0.0 then 1.0
    else 0.0
  }

  // ---------------------------------------------------------------------------
  // Arrow texture
  // ---------------------------------------------------------------------------

  /** Width and height of the arrow sprite, in pixels. */
  const TextureSize := 64

  /** The vertical shaft: columns 28 to 35 of rows 10 to 50. */
  predicate InShaft(x: int, y: int)
  {
    28 <= x <= 35 && 10 <= y <= 50
  }

  /** The head: from row 50 up, the columns within `32 - 2 * (y - 50)` of column 32. */
  predicate InHead(x: int, y: int)
  {
    y >= 50 && IntAbs(x - 32) <= 32 - (y - 50) * 2
  }

  /** Whether pixel `(x, y)` of the upward arrow is opaque: nothing below row 10, the
      shaft's columns 28 to 35 on rows 10 to 49, and from row 50 up the columns within
      `32 - 2 * (y - 50)` of column 32, which covers the shaft's last row. */
  function ArrowPixel(x: int, y: int): (r: bool)
    ensures y < 10 ==> !r
    ensures 10 <= y < 50 ==> (r <==> 28 <= x <= 35)
    ensures y >= 50 ==> (r <==> IntAbs(x - 32) <= 32 - 2 * (y - 50))
  {
    InShaft(x, y) || InHead(x, y)
  }

  /** Row-major position of pixel `(x, y)` in the texture's pixel array. It lies inside
      the array, and the pixel is recovered from it, so distinct pixels have distinct
      positions. */
  function PixelIndex(x: int, y: int): (i: int)
    requires 0 <= x < TextureSize && 0 <= y < TextureSize
    ensures 0 <= i < TextureSize * TextureSize
    ensures i / TextureSize == y && i % TextureSize == x
  {
    y * TextureSize + x
  }

  /** Distinct pixels are written at distinct positions, so each position is written
      exactly once. */
  lemma PixelIndexInjective(x1: int, y1: int, x2: int, y2: int)
    requires 0 <= x1 < TextureSize && 0 <= y1 < TextureSize
    requires 0 <= x2 < TextureSize && 0 <= y2 < TextureSize
    ensures PixelIndex(x1, y1) == PixelIndex(x2, y2) <==> x1 == x2 && y1 == y2
  {
  }

  /** `CreateArrowTexture`: the 64x64 pixel array handed to `Texture2D.SetPixels`, white
      on the arrow and clear elsewhere. The texture object itself is engine state. */
  method CreateArrowTexture() returns (pixels: array<Color>)
    ensures fresh(pixels) && pixels.Length == TextureSize * TextureSize
    ensures forall x, y :: 0 <= x < TextureSize && 0 <= y < TextureSize ==>
      pixels[PixelIndex(x, y)] == if ArrowPixel(x, y) then White else Clear
  {
    pixels := new Color[TextureSize * TextureSize](_ => Clear);
    var y := 0;
    while y < TextureSize
      invariant 0 <= y <= TextureSize
      invariant forall x', y' :: 0 <= x' < TextureSize && 0 <= y' < y ==>
        pixels[PixelIndex(x', y')] == if ArrowPixel(x', y') then White else Clear
    {
      var x := 0;
      while x < TextureSize
        invariant 0 <= x <= TextureSize
        invariant forall x', y' :: 0 <= x' < TextureSize && 0 <= y' < y ==>
          pixels[PixelIndex(x', y')] == if ArrowPixel(x', y') then White else Clear
        invariant forall x' :: 0 <= x' < x ==>
          pixels[PixelIndex(x', y)] == if ArrowPixel(x', y) then White else Clear
      {
        var index := PixelIndex(x, y);
        var isArrow := false;
        if x >= 28 && x <= 35 && y >= 10 && y <= 50 {
          isArrow := true;
        }
        if y >= 50 {
          var distanceFromCenter := IntAbs(x - 32);
          var maxWidth := 32 - (y - 50) * 2;
          if distanceFromCenter <= maxWidth {
            isArrow := true;
          }
        }
        pixels[index] := if isArrow then White else Clear;
        x := x + 1;
      }
      y := y + 1;
    }
  }

  /** The head narrows: row `y + 1` of the head is row `y` less two columns on either
      side, the outermost two, since its half-width is smaller by two. */
  lemma ArrowHeadNarrows(x: int, y: int)
    requires 0 <= x < TextureSize && 50 <= y < TextureSize - 1
    ensures ArrowPixel(x, y + 1) <==> ArrowPixel(x, y) && IntAbs(x - 32) <= 32 - 2 * (y + 1 - 50)
    ensures ArrowPixel(x, y) && !ArrowPixel(x, y + 1) ==> IntAbs(x - 32) >= 32 - 2 * (y - 50) - 1
  {
  }

  // ---------------------------------------------------------------------------
  // Zone membership
  // ---------------------------------------------------------------------------

  /** The zone test of `CheckPlayerInZone`: the zone is a vertical cylinder of radius
      `radius` reaching `height` above and below the zone's origin, both bounds
      inclusive. */
  function InZone(horizontalDistance: real, heightAboveZone: real, radius: real, height: real): (r: bool)
    ensures r <==> horizontalDistance <= radius && Abs(heightAboveZone) <= height
  {
    horizontalDistance <= radius && heightAboveZone >= -height && heightAboveZone <= height
  }

  /** The boundary belongs to the zone, and the zone is symmetric about its origin's
      height. */
  lemma InZoneBounds(horizontalDistance: real, heightAboveZone: real, radius: real, height: real)
    ensures InZone(radius, height, radius, height) <==> height >= 0.0
    ensures InZone(radius, -height, radius, height) <==> height >= 0.0
    ensures InZone(horizontalDistance, heightAboveZone, radius, height)
        <==> InZone(horizontalDistance, -heightAboveZone, radius, height)
  {
  }

  // ---------------------------------------------------------------------------
  // Bounce bookkeeping
  // ---------------------------------------------------------------------------

  /** The private fields `ApplyDamping` updates each tick. */
  datatype BounceState = BounceState(wasFalling: bool, bounceCount: int, lastBounceHeight: real)

  /** The inspector settings the bounce bookkeeping reads. */
  datatype BounceTuning = BounceTuning(
    initialBounceRetention: real,
    retentionDecrease: real,
    minBounceRetention: real,
    targetHeight: real,
    floatZone: real)

  /** A bounce: the player was falling on the previous tick and now moves up. */
  predicate JustBounced(wasFalling: bool, vy: real)
  {
    wasFalling && !(vy < 0.0) && vy > 0.0
  }

  /** Share of the previous height kept by bounce number `bounceCount`: it starts at
      `initialBounceRetention`, loses `retentionDecrease` per bounce and never drops below
      `minBounceRetention`. */
  function Retention(t: BounceTuning, bounceCount: int): (r: real)
    ensures r >= t.minBounceRetention
    ensures r >= t.initialBounceRetention - (bounceCount - 1) as real * t.retentionDecrease
    ensures r == t.minBounceRetention
         || r == t.initialBounceRetention - (bounceCount - 1) as real * t.retentionDecrease
  {
    Max(t.initialBounceRetention - (bounceCount - 1) as real * t.retentionDecrease, t.minBounceRetention)
  }

  /** With a non-negative decrease, retention never grows from one bounce to the next. */
  lemma RetentionDecays(t: BounceTuning, bounceCount: int)
    requires t.retentionDecrease >= 0.0
    ensures Retention(t, bounceCount + 1) <= Retention(t, bounceCount)
  {
    var d := t.retentionDecrease;
    assert bounceCount as real * d == (bounceCount - 1) as real * d + d;
  }

  /** Height the player is sent back up to: never above the previous height times the
      retention, that height itself when it reaches one unit above the float zone, and
      at most 0.3 when it falls short of it. */
  function TargetBounceHeight(lastBounceHeight: real, retention: real, t: BounceTuning): (r: real)
    ensures r <= lastBounceHeight * retention
    ensures lastBounceHeight * retention < t.targetHeight + t.floatZone + 1.0 ==> r <= 0.3
    ensures lastBounceHeight * retention >= t.targetHeight + t.floatZone + 1.0 ==>
      r == lastBounceHeight * retention
  {
    var target := lastBounceHeight * retention;
    if target < t.targetHeight + t.floatZone + 1.0 then Min(target, 0.3) else target
  }

  /** The bookkeeping of one `ApplyDamping` tick, driven by the vertical velocity `vy`
      read at its start and the player's height `currentHeight`: the count grows by
      exactly one on a bounce (falling before, rising now) and stays put otherwise;
      `wasFalling` records whether `vy` was negative; the last bounce height changes only
      on a bounce, to the capped target, or on the first falling tick, to the current
      height. */
  function NextBounce(s: BounceState, vy: real, currentHeight: real, t: BounceTuning): (r: BounceState)
    ensures r.bounceCount == s.bounceCount + if s.wasFalling && vy > 0.0 then 1 else 0
    ensures r.wasFalling == (vy < 0.0)
    ensures s.wasFalling && vy > 0.0 ==>
      r.lastBounceHeight == TargetBounceHeight(s.lastBounceHeight, Retention(t, s.bounceCount + 1), t)
    ensures !s.wasFalling && vy < 0.0 ==> r.lastBounceHeight == currentHeight
    ensures !(s.wasFalling && vy > 0.0) && !(!s.wasFalling && vy < 0.0) ==>
      r.lastBounceHeight == s.lastBounceHeight
  {
    var isFalling := vy < 0.0;
    if JustBounced(s.wasFalling, vy) then
      var count := s.bounceCount + 1;
      BounceState(isFalling, count, TargetBounceHeight(s.lastBounceHeight, Retention(t, count), t))
    else if isFalling && !s.wasFalling then
      BounceState(isFalling, s.bounceCount, currentHeight)
    else
      s.(wasFalling := isFalling)
  }

  /** The bookkeeping after a run of ticks with vertical velocities `vys` and heights
      `heights`. */
  function Run(s: BounceState, vys: seq<real>, heights: seq<real>, t: BounceTuning): BounceState
    requires |vys| == |heights|
    decreases |vys|
  {
    if vys == [] then s
    else Run(NextBounce(s, vys[0], heights[0], t), vys[1..], heights[1..], t)
  }

  /** Number of bounces in a run: ticks with positive velocity right after a tick with
      negative velocity (or, for the first tick, after a falling start). */
  function BouncesIn(wasFalling: bool, vys: seq<real>): (n: nat)
    ensures n <= |vys|
    decreases |vys|
  {
    if vys == [] then 0
    else (if wasFalling && vys[0] > 0.0 then 1 else 0) + BouncesIn(vys[0] < 0.0, vys[1..])
  }

  /** Over any run the count grows by exactly the number of bounces, so it never
      decreases and is never reset; afterwards `wasFalling` tells whether the last
      velocity was negative. */
  lemma {:induction false} RunCountsBounces(s: BounceState, vys: seq<real>, heights: seq<real>, t: BounceTuning)
    requires |vys| == |heights|
    ensures Run(s, vys, heights, t).bounceCount == s.bounceCount + BouncesIn(s.wasFalling, vys)
    ensures Run(s, vys, heights, t).bounceCount >= s.bounceCount
    ensures vys != [] ==> Run(s, vys, heights, t).wasFalling == (vys[|vys| - 1] < 0.0)
    decreases |vys|
  {
    if vys != [] {
      var next := NextBounce(s, vys[0], heights[0], t);
      RunCountsBounces(next, vys[1..], heights[1..], t);
      if |vys| > 1 {
        assert vys[1..][|vys[1..]| - 1] == vys[|vys| - 1];
      }
    }
  }

  /** `sqrt` is a square root on the non-negative reals, as `Mathf.Sqrt` is up to
      rounding. */
  ghost predicate IsSqrt(sqrt: real -> real)
  {
    forall x :: x >= 0.0 ==> sqrt(x) >= 0.0 && sqrt(x) * sqrt(x) == x
  }

  /** Upward speed `Sqrt(2 * |gravityY| * height)`: with a true square root and a
      non-negative height it is the non-negative speed whose square is
      `2 * |gravityY| * height`, the speed that carries a body up exactly `height` under
      gravity `gravityY`. */
  function LaunchSpeed(height: real, gravityY: real, sqrt: real -> real): (r: real)
    ensures IsSqrt(sqrt) && height >= 0.0 ==> r >= 0.0 && r * r == 2.0 * Abs(gravityY) * height
  {
    sqrt(2.0 * Abs(gravityY) * height)
  }

  /** The velocity damping of a tick: 1% off a speed above `minBounceVelocity`, the
      `dampingFactor` otherwise. With a damping factor between 0 and 1 it never speeds
      the player up nor turns the motion around. */
  function Damp(vy: real, minBounceVelocity: real, dampingFactor: real): (r: real)
    ensures 0.0 <= dampingFactor <= 1.0 ==>
      && (vy >= 0.0 ==> 0.0 <= r <= vy)
      && (vy <= 0.0 ==> vy <= r <= 0.0)
  {
    if Abs(vy) > minBounceVelocity then ScaleKeepsSign(vy, 0.99); vy * 0.99
    else ScaleKeepsSign(vy, dampingFactor); vy * dampingFactor
  }

  /** Scaling by a factor in [0, 1] moves a value toward 0 without passing it. */
  lemma ScaleKeepsSign(a: real, f: real)
    ensures 0.0 <= f <= 1.0 ==>
      && (a >= 0.0 ==> 0.0 <= a * f <= a)
      && (a <= 0.0 ==> a <= a * f <= 0.0)
  {
    if 0.0 <= f <= 1.0 {
      if a >= 0.0 {
        ScaleShrinks(a, f);
      } else {
        ScaleShrinks(-a, f);
        assert a * f == -((-a) * f);
      }
    }
  }

  /** Scaling a non-negative amount by a factor in [0, 1] keeps it between 0 and itself. */
  lemma ScaleShrinks(a: real, f: real)
    requires a >= 0.0 && 0.0 <= f <= 1.0
    ensures 0.0 <= a * f <= a
  {
    var g := 1.0 - f;
    assert a * g >= 0.0;
    assert a * f + a * g == a * (f + g);
  }

  /** `pow` raises a fraction to a non-negative power to a fraction, as `Mathf.Pow`
      does up to rounding. */
  ghost predicate PowOfFraction(pow: (real, real) -> real)
  {
    forall b, e :: 0.0 <= b <= 1.0 && e >= 0.0 ==> 0.0 <= pow(b, e) <= 1.0
  }

  /** `curve` maps a fraction to a fraction, as the default force curve does. */
  ghost predicate CurveOfFraction(curve: real -> real)
  {
    forall d :: 0.0 <= d <= 1.0 ==> 0.0 <= curve(d) <= 1.0
  }

  /** Scaling `s * m` by two fractions `c` and `h` never makes it larger. */
  lemma FractionsScaleDown(s: real, c: real, h: real, m: real)
    requires s >= 0.0 && m >= 0.0 && 0.0 <= c <= 1.0 && 0.0 <= h <= 1.0
    ensures 0.0 <= s * c * h * m <= s * m
  {
    ScaleShrinks(s, c);
    ScaleShrinks(s * c, h);
    var a := s * c * h;
    assert s * m - a * m == (s - a) * m;
  }

  /** The final step of the lift: `strength * curveValue * heightFactor * forceMultiplier`,
      never below zero. */
  function ClampedForce(strength: real, curveValue: real, heightFactor: real, forceMultiplier: real): (r: real)
    ensures r >= 0.0
    ensures r > 0.0 ==> r == strength * curveValue * heightFactor * forceMultiplier
  {
    Max(0.0, strength * curveValue * heightFactor * forceMultiplier)
  }

  /** With a curve value and a height factor in [0, 1], the force is at most
      `strength * forceMultiplier`. */
  lemma ClampedForceAtMostPeak(strength: real, curveValue: real, heightFactor: real, forceMultiplier: real)
    requires strength >= 0.0 && forceMultiplier >= 0.0
    requires 0.0 <= curveValue <= 1.0 && 0.0 <= heightFactor <= 1.0
    ensures ClampedForce(strength, curveValue, heightFactor, forceMultiplier) <= strength * forceMultiplier
  {
    FractionsScaleDown(strength, curveValue, heightFactor, forceMultiplier);
  }

  // ---------------------------------------------------------------------------
  // The component
  // ---------------------------------------------------------------------------

  /** `FlightZone`'s settings and the private state its per-tick methods update. */
  class FlightZone {
    var radius: real
    var height: real
    var strength: real
    var forceMultiplier: real
    var useHeightFalloff: bool
    var heightFalloffStrength: real
    var stabilizationForce: real
    var targetHeight: real
    var floatZone: real
    var dampingFactor: real
    var initialBounceRetention: real
    var retentionDecrease: real
    var minBounceRetention: real
    var minBounceVelocity: real
    var playerInZone: bool
    var lastBounceHeight: real
    var wasFalling: bool
    var bounceCount: int

    /** The field initialisers. */
    constructor ()
      ensures radius == 5.0 && height == 10.0 && strength == 120.0
      ensures forceMultiplier == 1.0 && useHeightFalloff && heightFalloffStrength == 1.0
      ensures stabilizationForce == 5.0 && targetHeight == 3.0 && floatZone == 0.3
      ensures dampingFactor == 0.95
      ensures initialBounceRetention == 0.78 && retentionDecrease == 0.02
      ensures minBounceRetention == 0.1 && minBounceVelocity == 2.0
      ensures !playerInZone && Bounce() == BounceState(false, 0, 0.0)
    {
      radius := 5.0;
      height := 10.0;
      strength := 120.0;
      forceMultiplier := 1.0;
      useHeightFalloff := true;
      heightFalloffStrength := 1.0;
      stabilizationForce := 5.0;
      targetHeight := 3.0;
      floatZone := 0.3;
      dampingFactor := 0.95;
      initialBounceRetention := 0.78;
      retentionDecrease := 0.02;
      minBounceRetention := 0.1;
      minBounceVelocity := 2.0;
      playerInZone := false;
      lastBounceHeight := 0.0;
      wasFalling := false;
      bounceCount := 0;
    }

    /** The bounce bookkeeping fields. */
    function Bounce(): BounceState
      reads this`wasFalling, this`bounceCount, this`lastBounceHeight
    {
      BounceState(wasFalling, bounceCount, lastBounceHeight)
    }

    /** The settings the bounce bookkeeping reads. */
    function Tuning(): BounceTuning
      reads this`initialBounceRetention, this`retentionDecrease, this`minBounceRetention,
            this`targetHeight, this`floatZone
    {
      BounceTuning(initialBounceRetention, retentionDecrease, minBounceRetention, targetHeight, floatZone)
    }

    /** `CheckPlayerInZone`: records whether the player is inside the zone, measuring the
        horizontal distance on the x/z plane and the height along y. */
    method CheckPlayerInZone(playerPos: Vector3, zonePos: Vector3, distance: (Vector2, Vector2) -> real)
      modifies this`playerInZone
      ensures playerInZone == InZone(distance(Vector2(playerPos.x, playerPos.z), Vector2(zonePos.x, zonePos.z)),
                                     playerPos.y - zonePos.y, radius, height)
    {
      var horizontalDistance := distance(Vector2(playerPos.x, playerPos.z), Vector2(zonePos.x, zonePos.z));
      var heightAboveZone := playerPos.y - zonePos.y;
      var inHorizontalZone := horizontalDistance <= radius;
      var inVerticalZone := heightAboveZone >= -height && heightAboveZone <= height;
      playerInZone := inHorizontalZone && inVerticalZone;
    }

    /** `ApplyDamping`: updates the bounce bookkeeping from the player's velocity and
        height, and returns the velocity written back to the rigidbody. On a bounce the
        vertical speed is reset to the one that reaches the new target height under
        gravity; either way it is then damped. */
    method ApplyDamping(velocity: Vector3, currentHeight: real, gravityY: real, sqrt: real -> real)
      returns (newVelocity: Vector3)
      modifies this`wasFalling, this`bounceCount, this`lastBounceHeight
      ensures Bounce() == NextBounce(old(Bounce()), velocity.y, currentHeight, Tuning())
      ensures newVelocity.x == velocity.x && newVelocity.z == velocity.z
      ensures newVelocity.y == Damp(
        if JustBounced(old(wasFalling), velocity.y) then LaunchSpeed(lastBounceHeight, gravityY, sqrt)
        else velocity.y,
        minBounceVelocity, dampingFactor)
    {
      var tuning := Tuning();
      var vy := velocity.y;
      var isFalling := vy < 0.0;
      var justBounced := wasFalling && !isFalling && vy > 0.0;
      if justBounced {
        bounceCount := bounceCount + 1;
        var currentRetention := Retention(tuning, bounceCount);
        var targetBounceHeight := TargetBounceHeight(lastBounceHeight, currentRetention, tuning);
        vy := LaunchSpeed(targetBounceHeight, gravityY, sqrt);
        lastBounceHeight := targetBounceHeight;
      } else if isFalling && !wasFalling {
        lastBounceHeight := currentHeight;
      }
      ghost var undamped := vy;
      if Abs(vy) > minBounceVelocity {
        vy := vy * 0.99;
      } else {
        vy := vy * dampingFactor;
      }
      assert vy == Damp(undamped, minBounceVelocity, dampingFactor);
      wasFalling := isFalling;
      newVelocity := velocity.(y := vy);
    }

    /** `CalculateStabilizationForce`: a vertical force pulling the player toward
        `targetHeight`, switched off during a fast fall, far from the target, and inside
        the float zone once the player has bounced more than ten times. It never exceeds
        `stabilizationForce` in size. */
    function StabilizationForce(heightAboveZone: real, vy: real): (r: real)
      reads this
      ensures Abs(r) <= Abs(stabilizationForce)
      ensures stabilizationForce >= 0.0 ==> -stabilizationForce <= r <= stabilizationForce
    {
      var heightDifference := targetHeight - heightAboveZone;
      if vy < -5.0 then 0.0
      else if Abs(heightDifference) > 8.0 then 0.0
      else if Abs(heightDifference) <= floatZone && bounceCount > 10 then 0.0
      else
        var distanceFromFloatZone := Abs(heightDifference) - floatZone;
        var stabilization := Sign(heightDifference) * distanceFromFloatZone * stabilizationForce;
        Clamp(stabilization, -stabilizationForce, stabilizationForce)
    }

    /** The cases in which no stabilisation is applied. */
    lemma StabilizationSwitchedOff(heightAboveZone: real, vy: real)
      ensures vy < -5.0 ==> StabilizationForce(heightAboveZone, vy) == 0.0
      ensures Abs(targetHeight - heightAboveZone) > 8.0 ==> StabilizationForce(heightAboveZone, vy) == 0.0
      ensures Abs(targetHeight - heightAboveZone) <= floatZone && bounceCount > 10 ==>
        StabilizationForce(heightAboveZone, vy) == 0.0
    {
    }

    /** Direction of the force when it is applied with a non-negative strength: outside
        the float zone it points toward the target height; inside it, the offset from the
        zone's edge is negative, so it points away from the target height (downward when
        exactly at it). */
    lemma StabilizationDirection(heightAboveZone: real, vy: real)
      requires stabilizationForce >= 0.0 && vy >= -5.0
      requires Abs(targetHeight - heightAboveZone) <= 8.0
      ensures Abs(targetHeight - heightAboveZone) > floatZone ==>
        && (targetHeight > heightAboveZone ==> StabilizationForce(heightAboveZone, vy) >= 0.0)
        && (targetHeight < heightAboveZone ==> StabilizationForce(heightAboveZone, vy) <= 0.0)
      ensures Abs(targetHeight - heightAboveZone) < floatZone && bounceCount <= 10 ==>
        && (targetHeight >= heightAboveZone ==> StabilizationForce(heightAboveZone, vy) <= 0.0)
        && (targetHeight < heightAboveZone ==> StabilizationForce(heightAboveZone, vy) >= 0.0)
    {
      var heightDifference := targetHeight - heightAboveZone;
      var distanceFromFloatZone := Abs(heightDifference) - floatZone;
      if distanceFromFloatZone > 0.0 {
        assert distanceFromFloatZone * stabilizationForce >= 0.0;
      } else {
        assert distanceFromFloatZone * stabilizationForce <= 0.0;
      }
    }

    /** Height factor of the lift: 1 at the origin's level and below, and
        `Pow(1 - heightFactor, heightFalloffStrength)` above it when the falloff is on, so
        with a non-negative exponent it is a fraction that weakens the lift. */
    function HeightFalloff(heightAboveZone: real, pow: (real, real) -> real): (r: real)
      reads this
      ensures heightAboveZone <= 0.0 || !useHeightFalloff ==> r == 1.0
      ensures PowOfFraction(pow) && heightFalloffStrength >= 0.0 ==> 0.0 <= r <= 1.0
    {
      if useHeightFalloff && heightAboveZone > 0.0 then
        pow(1.0 - ClampedRatio(Abs(heightAboveZone), height), heightFalloffStrength)
      else 1.0
    }

    /** `CalculateForceByDistanceAndHeight`: `strength` shaped by the force curve over the
        3D distance (as a fraction of the zone's corner distance) and by the height
        falloff, scaled by `forceMultiplier`, and never negative. */
    function LiftForce(horizontalDistance: real, heightAboveZone: real,
                       curve: real -> real, pow: (real, real) -> real, sqrt: real -> real): (r: real)
      reads this
      ensures r >= 0.0
      ensures r > 0.0 ==>
        r == strength
             * curve(ClampedRatio(sqrt(horizontalDistance * horizontalDistance + heightAboveZone * heightAboveZone),
                                  sqrt(radius * radius + height * height)))
             * HeightFalloff(heightAboveZone, pow) * forceMultiplier
    {
      var totalDistance3D := sqrt(horizontalDistance * horizontalDistance + heightAboveZone * heightAboveZone);
      var maxDistance3D := sqrt(radius * radius + height * height);
      var distance3DFactor := ClampedRatio(totalDistance3D, maxDistance3D);
      var curveValue := curve(distance3DFactor);
      ClampedForce(strength, curveValue, HeightFalloff(heightAboveZone, pow), forceMultiplier)
    }

    /** With a force curve and a falloff that stay within [0, 1] and non-negative
        `strength` and `forceMultiplier`, the lift never exceeds
        `strength * forceMultiplier`, its value at the zone's centre with a full curve. */
    lemma LiftAtMostPeak(horizontalDistance: real, heightAboveZone: real,
                         curve: real -> real, pow: (real, real) -> real, sqrt: real -> real)
      requires CurveOfFraction(curve) && PowOfFraction(pow) && heightFalloffStrength >= 0.0
      requires strength >= 0.0 && forceMultiplier >= 0.0
      ensures LiftForce(horizontalDistance, heightAboveZone, curve, pow, sqrt) <= strength * forceMultiplier
    {
      var d := ClampedRatio(sqrt(horizontalDistance * horizontalDistance + heightAboveZone * heightAboveZone),
                            sqrt(radius * radius + height * height));
      assert LiftForce(horizontalDistance, heightAboveZone, curve, pow, sqrt)
          == ClampedForce(strength, curve(d), HeightFalloff(heightAboveZone, pow), forceMultiplier);
      ClampedForceAtMostPeak(strength, curve(d), HeightFalloff(heightAboveZone, pow), forceMultiplier);
    }
  }
}
