/**
 * Shared values of the racing track: axis-aligned wall rectangles, checkpoint
 * segments, the optional start/finish line and the aggregate track description
 * that the pixel extractor produces and the track model consumes.
 *
 * Track geometry is integral (pixel coordinates); vehicle positions, corners and
 * ray samples are reals.
 */
module Geometry {

  datatype Option<T> = None | Some(value: T)

  type Point = (real, real)

  /** A wall: axis-aligned rectangle anchored at its top-left pixel. */
  datatype Rect = Rect(x: int, y: int, width: int, height: int)

  /** A checkpoint segment with its traversal id and its mutable "passed" flag. */
  datatype Checkpoint = Checkpoint(x1: int, y1: int, x2: int, y2: int, id: int, passed: bool)

  /** The start/finish line. */
  datatype Segment = Segment(x1: int, y1: int, x2: int, y2: int)

  /** What the extractor returns and what a track can be built from. */
  datatype TrackData = TrackData(
    walls: seq<Rect>,
    checkpoints: seq<Checkpoint>,
    startPosition: (int, int),
    finishLine: Option<Segment>,
    width: int,
    height: int)

  function Abs(v: real): real { if v < 0.0 then -v else v }

  /** Inclusive point-in-rectangle test on both axes, as every collision query uses it. */
  predicate InWall(w: Rect, p: Point)
  {
    w.x as real <= p.0 <= (w.x + w.width) as real &&
    w.y as real <= p.1 <= (w.y + w.height) as real
  }

  /** Some point of `ps` lies in some wall of `walls`. */
  predicate AnyPointInWalls(walls: seq<Rect>, ps: seq<Point>)
  {
    exists i, j :: 0 <= i < |ps| && 0 <= j < |walls| && InWall(walls[j], ps[i])
  }

  /** Some wall of `walls` contains `p`. */
  predicate PointInWalls(walls: seq<Rect>, p: Point)
  {
    exists j :: 0 <= j < |walls| && InWall(walls[j], p)
  }

  function CheckpointStart(c: Checkpoint): Point { (c.x1 as real, c.y1 as real) }

  function CheckpointEnd(c: Checkpoint): Point { (c.x2 as real, c.y2 as real) }

  /** A checkpoint with its passed flag forgotten: what the flag resets must preserve. */
  function Shape(c: Checkpoint): (int, int, int, int, int) { (c.x1, c.y1, c.x2, c.y2, c.id) }

  predicate SameShapes(a: seq<Checkpoint>, b: seq<Checkpoint>)
  {
    |a| == |b| && forall i :: 0 <= i < |a| ==> Shape(a[i]) == Shape(b[i])
  }

  predicate NonePassed(cps: seq<Checkpoint>)
  {
    forall i :: 0 <= i < |cps| ==> !cps[i].passed
  }

  /** Ids are exactly the positions 0..N-1. */
  predicate DenseIds(cps: seq<Checkpoint>)
  {
    forall i :: 0 <= i < |cps| ==> cps[i].id == i
  }
}
