/**
 * Collision response: when a corner of the vehicle lies in a wall, every (corner, wall) pair
 * that collides proposes an axis-aligned push out through the wall's nearest edge; the vehicle
 * moves by the mean of those pushes and stops dead.
 */
module Physics {
  import opened Geometry
  import opened TrackModel
  import opened Vehicles

  /** How far beyond the nearest edge a push carries the corner. */
  const EdgeMargin: real := 2.0
  /** Length of the backwards push used when the pushes cancel out. */
  const FallbackPush: real := 10.0

  function DistLeft(c: Point, w: Rect): real { c.0 - w.x as real }
  function DistRight(c: Point, w: Rect): real { (w.x + w.width) as real - c.0 }
  function DistTop(c: Point, w: Rect): real { c.1 - w.y as real }
  function DistBottom(c: Point, w: Rect): real { (w.y + w.height) as real - c.1 }

  function Min(a: real, b: real): real { if a <= b then a else b }

  /** The distance from a corner inside the wall to the wall's nearest edge. */
  function NearestEdge(c: Point, w: Rect): real
  {
    Min(Min(Min(DistLeft(c, w), DistRight(c, w)), DistTop(c, w)), DistBottom(c, w))
  }

  /** The push for one colliding (corner, wall) pair: out through the nearest edge, by that
      edge's distance plus EdgeMargin; ties go left, right, top, bottom in that order. */
  function ExitPush(c: Point, w: Rect): (r: Point)
    requires InWall(w, c)
    ensures (r.0 == 0.0) != (r.1 == 0.0)
    ensures Abs(r.0) + Abs(r.1) == NearestEdge(c, w) + EdgeMargin >= EdgeMargin
    ensures r.0 < 0.0 ==>
      DistLeft(c, w) <= DistRight(c, w) && DistLeft(c, w) <= DistTop(c, w) && DistLeft(c, w) <= DistBottom(c, w)
    ensures r.0 > 0.0 ==>
      DistRight(c, w) < DistLeft(c, w) && DistRight(c, w) <= DistTop(c, w) && DistRight(c, w) <= DistBottom(c, w)
    ensures r.1 < 0.0 ==>
      DistTop(c, w) < DistLeft(c, w) && DistTop(c, w) < DistRight(c, w) && DistTop(c, w) <= DistBottom(c, w)
    ensures r.1 > 0.0 ==>
      DistBottom(c, w) < DistLeft(c, w) && DistBottom(c, w) < DistRight(c, w) && DistBottom(c, w) < DistTop(c, w)
    ensures !InWall(w, (c.0 + r.0, c.1 + r.1))
  {
    var minDist := NearestEdge(c, w);
    var pushAmount := minDist + EdgeMargin;
    if minDist == DistLeft(c, w) then (-pushAmount, 0.0)
    else if minDist == DistRight(c, w) then (pushAmount, 0.0)
    else if minDist == DistTop(c, w) then (0.0, -pushAmount)
    else (0.0, pushAmount)
  }

  /** Running totals of the pushes and of the number of colliding pairs. */
  datatype PushTotal = PushTotal(x: real, y: real, count: nat)

  function Plus(a: PushTotal, b: PushTotal): PushTotal
  {
    PushTotal(a.x + b.x, a.y + b.y, a.count + b.count)
  }

  /** Pushes for one corner against the walls, in wall order. */
  function WallPushes(c: Point, walls: seq<Rect>): PushTotal
  {
    if walls == [] then PushTotal(0.0, 0.0, 0)
    else
      var t := WallPushes(c, walls[..|walls| - 1]);
      var w := walls[|walls| - 1];
      if InWall(w, c) then Plus(t, PushTotal(ExitPush(c, w).0, ExitPush(c, w).1, 1)) else t
  }

  /** Pushes for all (corner, wall) pairs, corners in the outer loop. */
  function CornerPushes(corners: seq<Point>, walls: seq<Rect>): PushTotal
  {
    if corners == [] then PushTotal(0.0, 0.0, 0)
    else Plus(CornerPushes(corners[..|corners| - 1], walls), WallPushes(corners[|corners| - 1], walls))
  }

  /** The mean push over colliding pairs, or (0, 0) when no pair collides. */
  function MeanPush(corners: seq<Point>, walls: seq<Rect>): Point
  {
    var t := CornerPushes(corners, walls);
    if t.count > 0 then (t.x / t.count as real, t.y / t.count as real) else (0.0, 0.0)
  }

  lemma {:induction false} WallPushesCount(c: Point, walls: seq<Rect>)
    ensures WallPushes(c, walls).count == 0 <==> !PointInWalls(walls, c)
  {
    if walls != [] {
      var init := walls[..|walls| - 1];
      WallPushesCount(c, init);
      if PointInWalls(init, c) {
        var j :| 0 <= j < |init| && InWall(init[j], c);
        assert InWall(walls[j], c);
      }
      if PointInWalls(walls, c) && !InWall(walls[|walls| - 1], c) {
        var j :| 0 <= j < |walls| && InWall(walls[j], c);
        assert InWall(init[j], c);
      }
    }
  }

  /** No colliding pair exists exactly when no corner lies in any wall. */
  lemma {:induction false} NoPushIffNoCollision(corners: seq<Point>, walls: seq<Rect>)
    ensures CornerPushes(corners, walls).count == 0 <==> !AnyPointInWalls(walls, corners)
  {
    if corners != [] {
      var init, last := corners[..|corners| - 1], corners[|corners| - 1];
      NoPushIffNoCollision(init, walls);
      WallPushesCount(last, walls);
      if AnyPointInWalls(walls, init) {
        var i, j :| 0 <= i < |init| && 0 <= j < |walls| && InWall(walls[j], init[i]);
        assert InWall(walls[j], corners[i]);
      }
      if PointInWalls(walls, last) {
        var j :| 0 <= j < |walls| && InWall(walls[j], last);
        assert InWall(walls[j], corners[|corners| - 1]);
      }
      if AnyPointInWalls(walls, corners) && !PointInWalls(walls, last) {
        var i, j :| 0 <= i < |corners| && 0 <= j < |walls| && InWall(walls[j], corners[i]);
        assert i < |init| && InWall(walls[j], init[i]);
      }
    }
  }

  /** Accumulates the pushes of all colliding pairs and averages them. */
  method CalculatePushVector(corners: seq<Point>, walls: seq<Rect>) returns (push: Point)
    ensures push == MeanPush(corners, walls)
    ensures push != (0.0, 0.0) ==> AnyPointInWalls(walls, corners)
  {
    var totalX, totalY := 0.0, 0.0;
    var collisionCount: nat := 0;
    var i := 0;
    while i < |corners|
      invariant 0 <= i <= |corners|
      invariant PushTotal(totalX, totalY, collisionCount) == CornerPushes(corners[..i], walls)
    {
      var corner := corners[i];
      ghost var before := PushTotal(totalX, totalY, collisionCount);
      var j := 0;
      while j < |walls|
        invariant 0 <= j <= |walls|
        invariant PushTotal(totalX, totalY, collisionCount) == Plus(before, WallPushes(corner, walls[..j]))
      {
        var wall := walls[j];
        assert walls[..j + 1][..j] == walls[..j];
        if InWall(wall, corner) {
          var p := ExitPush(corner, wall);
          totalX := totalX + p.0;
          totalY := totalY + p.1;
          collisionCount := collisionCount + 1;
        }
        j := j + 1;
      }
      assert walls[..|walls|] == walls;
      assert corners[..i + 1][..i] == corners[..i];
      i := i + 1;
    }
    assert corners[..|corners|] == corners;
    NoPushIffNoCollision(corners, walls);
    if collisionCount > 0 {
      return (totalX / collisionCount as real, totalY / collisionCount as real);
    }
    return (0.0, 0.0);
  }

  /** The displacement applied on a collision: the mean push, or a FallbackPush-long step
      backwards along the heading (c, s) when the mean push is zero. */
  function CollisionPush(corners: seq<Point>, walls: seq<Rect>, heading: (real, real)): Point
  {
    var m := MeanPush(corners, walls);
    if m == (0.0, 0.0) then (-heading.0 * FallbackPush, -heading.1 * FallbackPush) else m
  }

  /** Resolves a collision of `car` with the walls of `track`: moves it by CollisionPush and
      stops it. Without a collision nothing changes. */
  method HandleCollision(car: Vehicle, track: Track, dir: real -> (real, real)) returns (collided: bool)
    modifies car
    ensures collided <==> AnyPointInWalls(track.walls, old(car.Corners(dir)))
    ensures !collided ==>
      car.x == old(car.x) && car.y == old(car.y) && car.speed == old(car.speed) && car.angle == old(car.angle)
    ensures collided ==>
      var push := CollisionPush(old(car.Corners(dir)), track.walls, dir(old(car.angle)));
      car.x == old(car.x) + push.0 && car.y == old(car.y) + push.1 &&
      car.speed == 0.0 && car.angle == old(car.angle)
  {
    var corners := car.Corners(dir);
    collided := track.CheckCollision(corners);
    if collided {
      var push := CalculatePushVector(corners, track.walls);
      if push.0 == 0.0 && push.1 == 0.0 {
        var heading := dir(car.angle);
        push := (-heading.0 * FallbackPush, -heading.1 * FallbackPush);
      }
      car.SetPosition(car.x + push.0, car.y + push.1);
      car.Accelerate(-car.speed);
    }
  }
}
