/**
 * Vehicle kinematics: speed clamping, friction with snapping to rest, heading changes and
 * movement along the heading, the rotated body rectangle and the ray fan used as sensors.
 *
 * Trigonometry is a parameter: `dir` maps a heading in degrees to its (cos, sin) pair.
 */
module Vehicles {
  import opened Geometry
  import opened TrackModel

  const MaxSpeed: real := 10.0
  const Acceleration: real := 0.5
  const FrictionFactor: real := 0.95
  const RotationSpeed: real := 3.0
  /** Below this magnitude friction snaps the speed to rest. */
  const RestSpeed: real := 0.1
  /** At or below this magnitude the vehicle does not move. */
  const MoveThreshold: real := 0.01

  /** Reverse speed is capped at half the forward maximum. */
  predicate SpeedInRange(speed: real)
  {
    -MaxSpeed * 0.5 <= speed <= MaxSpeed
  }

  /** The speed after adding `amount`, clamped into [-MaxSpeed / 2, MaxSpeed]. */
  function Accelerated(speed: real, amount: real): (r: real)
    ensures SpeedInRange(r)
    ensures SpeedInRange(speed + amount) ==> r == speed + amount
    ensures speed + amount > MaxSpeed ==> r == MaxSpeed
    ensures speed + amount < -MaxSpeed * 0.5 ==> r == -MaxSpeed * 0.5
  {
    var s := speed + amount;
    if s > MaxSpeed then MaxSpeed
    else if s < -MaxSpeed * 0.5 then -MaxSpeed * 0.5
    else s
  }

  /** Accelerating by the negated speed stops the vehicle exactly, whatever the speed. */
  lemma FullStop(speed: real)
    ensures Accelerated(speed, -speed) == 0.0
  {
  }

  /** Acceleration is monotone in the amount: more throttle never gives less speed. */
  lemma AcceleratedMonotone(speed: real, a: real, b: real)
    requires a <= b
    ensures Accelerated(speed, a) <= Accelerated(speed, b)
  {
  }

  /** Speed after one friction step: scaled by FrictionFactor, then snapped to 0 when its
      magnitude falls below RestSpeed. */
  function Friction(speed: real): (r: real)
    ensures Abs(r) <= Abs(speed)
    ensures r == 0.0 || (r > 0.0 <==> speed > 0.0)
    ensures r == 0.0 || Abs(r) >= RestSpeed
    ensures Abs(speed * FrictionFactor) >= RestSpeed ==> r == speed * FrictionFactor
  {
    var s := speed * FrictionFactor;
    if Abs(s) < RestSpeed then 0.0 else s
  }

  /** Friction keeps an in-range speed in range. */
  lemma FrictionKeepsRange(speed: real)
    requires SpeedInRange(speed)
    ensures SpeedInRange(Friction(speed))
  {
  }

  /** The fan of sensor rays, in degrees relative to the heading. */
  function RaycastAngles(): (r: seq<real>)
    ensures |r| == 7 && r[3] == 0.0
    ensures forall i, j :: 0 <= i < j < |r| ==> r[i] < r[j]
    ensures forall i :: 0 <= i < |r| ==> r[i] == -r[|r| - 1 - i]
    ensures r[0] == -90.0 && r[|r| - 1] == 90.0
  {
    [-90.0, -60.0, -30.0, 0.0, 30.0, 60.0, 90.0]
  }

  /** The body-frame offset `local` rotated by the direction (c, s) and placed at `center`. */
  function Placed(center: Point, local: Point, c: real, s: real): Point
  {
    (center.0 + (local.0 * c - local.1 * s), center.1 + (local.0 * s + local.1 * c))
  }

  /** The body rectangle's corners around `center`, rotated by the direction (c, s). */
  function BodyCorners(center: Point, c: real, s: real, width: real, height: real): (r: seq<Point>)
    ensures |r| == 4
  {
    var hw, hh := width / 2.0, height / 2.0;
    [Placed(center, (-hw, -hh), c, s), Placed(center, (hw, -hh), c, s),
     Placed(center, (hw, hh), c, s), Placed(center, (-hw, hh), c, s)]
  }

  /** Whatever the direction values, the corners' mean is the centre and opposite corners are
      mirror images through it. */
  lemma BodyCornersAroundCenter(center: Point, c: real, s: real, width: real, height: real)
    ensures var r := BodyCorners(center, c, s, width, height);
      (r[0].0 + r[1].0 + r[2].0 + r[3].0) / 4.0 == center.0 &&
      (r[0].1 + r[1].1 + r[2].1 + r[3].1) / 4.0 == center.1 &&
      r[0].0 + r[2].0 == 2.0 * center.0 && r[0].1 + r[2].1 == 2.0 * center.1 &&
      r[1].0 + r[3].0 == 2.0 * center.0 && r[1].1 + r[3].1 == 2.0 * center.1
  {
    var hw, hh := width / 2.0, height / 2.0;
    assert (-hw) * c == -(hw * c) && (-hw) * s == -(hw * s);
    assert (-hh) * c == -(hh * c) && (-hh) * s == -(hh * s);
  }

  /** The position after one movement step: one speed-length along `heading`, unless the
      speed is at most MoveThreshold in magnitude. */
  function Moved(pos: Point, speed: real, heading: (real, real)): Point
  {
    if Abs(speed) > MoveThreshold then (pos.0 + heading.0 * speed, pos.1 + heading.1 * speed) else pos
  }

  /** Where a ray from `origin` along `heading` stops after distance `d`. */
  function RayEnd(origin: Point, heading: (real, real), d: real): Point
  {
    (origin.0 + heading.0 * d, origin.1 + heading.1 * d)
  }

  /** One sensor reading: the marched distance (at most the limit) and where the ray stops. */
  ghost predicate RayReading(walls: seq<Rect>, origin: Point, heading: (real, real), maxDistance: real,
                             d: real, end: Point)
  {
    d <= maxDistance && IsRayDistance(walls, origin, heading, maxDistance, d) && end == RayEnd(origin, heading, d)
  }

  class Vehicle {
    var x: real
    var y: real
    var speed: real
    var angle: real
    const width: real
    const height: real

    /** At rest, heading 0, at (x, y). */
    constructor (x: real, y: real, width: real, height: real)
      ensures this.x == x && this.y == y && speed == 0.0 && angle == 0.0
      ensures this.width == width && this.height == height
    {
      this.x := x;
      this.y := y;
      speed := 0.0;
      angle := 0.0;
      this.width := width;
      this.height := height;
    }

    method SetPosition(x: real, y: real)
      modifies this
      ensures this.x == x && this.y == y
      ensures speed == old(speed) && angle == old(angle)
    {
      this.x := x;
      this.y := y;
    }

    method SetAngle(angle: real)
      modifies this
      ensures this.angle == angle
      ensures x == old(x) && y == old(y) && speed == old(speed)
    {
      this.angle := angle;
    }

    method Accelerate(amount: real)
      modifies this
      ensures speed == Accelerated(old(speed), amount)
      ensures x == old(x) && y == old(y) && angle == old(angle)
    {
      speed := speed + amount;
      if speed > MaxSpeed {
        speed := MaxSpeed;
      } else if speed < -MaxSpeed * 0.5 {
        speed := -MaxSpeed * 0.5;
      }
    }

    method Rotate(amount: real)
      modifies this
      ensures angle == old(angle) + amount
      ensures x == old(x) && y == old(y) && speed == old(speed)
    {
      angle := angle + amount;
    }

    method ApplyFriction()
      modifies this
      ensures speed == Friction(old(speed))
      ensures x == old(x) && y == old(y) && angle == old(angle)
    {
      speed := speed * FrictionFactor;
      if Abs(speed) < RestSpeed {
        speed := 0.0;
      }
    }

    /** Moves one speed-length along the heading unless the vehicle is practically at rest;
        `dt` is accepted and unused, as in the original. */
    method UpdatePosition(dt: real, dir: real -> (real, real))
      modifies this
      ensures (x, y) == Moved((old(x), old(y)), old(speed), dir(old(angle)))
      ensures speed == old(speed) && angle == old(angle)
    {
      if Abs(speed) > MoveThreshold {
        var heading := dir(angle);
        x := x + heading.0 * speed;
        y := y + heading.1 * speed;
      }
    }

    /** The four corners of the body rectangle at the current position and heading. */
    function Corners(dir: real -> (real, real)): (r: seq<Point>)
      reads this
      ensures |r| == 4
      ensures (r[0].0 + r[1].0 + r[2].0 + r[3].0) / 4.0 == x
      ensures (r[0].1 + r[1].1 + r[2].1 + r[3].1) / 4.0 == y
    {
      BodyCornersAroundCenter((x, y), dir(angle).0, dir(angle).1, width, height);
      BodyCorners((x, y), dir(angle).0, dir(angle).1, width, height)
    }

    /** One ray per fan angle, cast from the vehicle's position; returns the distances and the
        points where the rays stop. */
    method GetRaycasts(track: Track, maxDistance: real, dir: real -> (real, real))
      returns (distances: seq<real>, endpoints: seq<Point>)
      ensures |distances| == |RaycastAngles()| && |endpoints| == |distances|
      ensures forall i :: 0 <= i < |distances| ==>
        RayReading(track.walls, (x, y), dir(angle + RaycastAngles()[i]), maxDistance, distances[i], endpoints[i])
    {
      var rayAngles := RaycastAngles();
      var origin := (x, y);
      distances := [];
      endpoints := [];
      var i := 0;
      while i < |rayAngles|
        invariant 0 <= i <= |rayAngles|
        invariant |distances| == i && |endpoints| == i
        invariant forall k :: 0 <= k < i ==>
          RayReading(track.walls, origin, dir(angle + rayAngles[k]), maxDistance, distances[k], endpoints[k])
      {
        var absoluteAngle := angle + rayAngles[i];
        var distance := track.CastRay(origin, dir(absoluteAngle), maxDistance);
        distances := distances + [distance];
        endpoints := endpoints + [RayEnd(origin, dir(absoluteAngle), distance)];
        i := i + 1;
      }
    }
  }
}
