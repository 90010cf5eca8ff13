/**
 * The training environment's progress engine: a step counter, a no-progress counter, the index
 * of the next checkpoint to cross and the number of completed laps, driven by the track's
 * crossing tests after each simulated car step.
 *
 * Checkpoints must be crossed in order; once all are passed, crossing the finish line completes
 * a lap and clears every checkpoint. Episodes never terminate; they are truncated after
 * `maxSteps` steps or after MaxStepsWithoutProgress steps without a crossing.
 *
 * Square roots are parameters: a caller passes a Euclidean length together with the square it
 * must match.
 */
module RacingEnvironment {
  import opened Geometry
  import opened TrackModel
  import opened TrackLoader
  import opened Vehicles
  import opened AiCar
  import opened Physics

  const MaxStepsWithoutProgress: int := 300
  const MaxRaycastDistance: real := 500.0
  /** The simulation step handed to the car; the car ignores it. */
  const FrameTime: real := 1.0 / 60.0
  /** The heading, in degrees, the car faces after construction and reset. */
  const StartAngle: real := 90.0

  // ---------------------------------------------------------------------------
  // Counters.
  // ---------------------------------------------------------------------------

  /** The four counters of an episode. */
  datatype Progress = Progress(step: int, idle: int, next: nat, laps: nat)

  /** The counters after one step, given whether the next checkpoint was crossed and whether
      the movement crossed the finish line. The finish line only counts once every checkpoint
      has been passed. */
  function Advance(p: Progress, total: nat, crossedNext: bool, crossedFinish: bool): Progress
  {
    Settle(p.(step := p.step + 1, idle := p.idle + 1), total, crossedNext, crossedFinish)
  }

  /** The checkpoint and lap part of a step, applied to already incremented counters. */
  function Settle(p: Progress, total: nat, crossedNext: bool, crossedFinish: bool): Progress
  {
    var afterCheckpoint := if crossedNext then p.(next := p.next + 1, idle := 0) else p;
    if afterCheckpoint.next >= total && crossedFinish then
      afterCheckpoint.(laps := afterCheckpoint.laps + 1, next := 0, idle := 0)
    else afterCheckpoint
  }

  /** A lap is completed by this step. */
  predicate LapCompleted(p: Progress, total: nat, crossedNext: bool, crossedFinish: bool)
  {
    (if crossedNext then p.next + 1 else p.next) >= total && crossedFinish
  }

  predicate Truncated(p: Progress, maxSteps: int)
  {
    p.idle >= MaxStepsWithoutProgress || p.step >= maxSteps
  }

  /** Every step counts once; a lap adds exactly one to the lap count and restarts the
      checkpoint sequence; otherwise the lap count stays and a crossing advances the next
      checkpoint by one. */
  lemma AdvanceCounts(p: Progress, total: nat, crossedNext: bool, crossedFinish: bool)
    ensures var r := Advance(p, total, crossedNext, crossedFinish);
      r.step == p.step + 1 &&
      (LapCompleted(p, total, crossedNext, crossedFinish) ==> r.laps == p.laps + 1 && r.next == 0) &&
      (!LapCompleted(p, total, crossedNext, crossedFinish) ==>
         r.laps == p.laps && r.next == (if crossedNext then p.next + 1 else p.next))
  {
  }

  /** The no-progress counter restarts exactly on a crossing or a lap and otherwise grows by
      one. */
  lemma AdvanceIdle(p: Progress, total: nat, crossedNext: bool, crossedFinish: bool)
    ensures var r := Advance(p, total, crossedNext, crossedFinish);
      (crossedNext || LapCompleted(p, total, crossedNext, crossedFinish) ==> r.idle == 0) &&
      (!crossedNext && !LapCompleted(p, total, crossedNext, crossedFinish) ==> r.idle == p.idle + 1)
  {
  }

  /** The next-checkpoint index stays within [0, total] as long as a crossing is only reported
      for an existing checkpoint. */
  lemma AdvanceKeepsNextInRange(p: Progress, total: nat, crossedNext: bool, crossedFinish: bool)
    requires p.next <= total
    requires crossedNext ==> p.next < total
    ensures Advance(p, total, crossedNext, crossedFinish).next <= total
  {
  }

  /** Runs the counters over a sequence of (checkpoint crossed, finish crossed) outcomes, where a
      crossing only counts while a checkpoint remains, as the track reports it. */
  function Run(p: Progress, total: nat, outcomes: seq<(bool, bool)>): Progress
    decreases |outcomes|
  {
    if outcomes == [] then p
    else
      var o := outcomes[0];
      Run(Advance(p, total, o.0 && p.next < total, o.1), total, outcomes[1..])
  }

  /** How many outcomes report a checkpoint crossing. */
  function Crossings(outcomes: seq<(bool, bool)>): nat
  {
    if outcomes == [] then 0 else (if outcomes[0].0 then 1 else 0) + Crossings(outcomes[1..])
  }

  /** Every lap takes `total` checkpoint crossings: over any run, the laps completed times the
      number of checkpoints, plus the checkpoints passed in the current lap, grow by no more
      than the crossings reported. */
  lemma {:induction false} RunNeedsCrossings(p: Progress, total: nat, outcomes: seq<(bool, bool)>)
    requires p.next <= total
    ensures Run(p, total, outcomes).next <= total
    ensures Run(p, total, outcomes).laps * total + Run(p, total, outcomes).next <=
            p.laps * total + p.next + Crossings(outcomes)
    decreases |outcomes|
  {
    if outcomes != [] {
      var o := outcomes[0];
      var crossed := o.0 && p.next < total;
      var q := Advance(p, total, crossed, o.1);
      AdvanceKeepsNextInRange(p, total, crossed, o.1);
      if LapCompleted(p, total, crossed, o.1) {
        assert q.laps * total == p.laps * total + total;
      }
      RunNeedsCrossings(q, total, outcomes[1..]);
    }
  }

  /** From a fresh episode, completing `laps` laps takes at least laps * total crossings. */
  lemma LapsNeedEveryCheckpoint(total: nat, outcomes: seq<(bool, bool)>, startStep: int)
    ensures Run(Progress(startStep, 0, 0, 0), total, outcomes).laps * total <= Crossings(outcomes)
  {
    RunNeedsCrossings(Progress(startStep, 0, 0, 0), total, outcomes);
  }

  // ---------------------------------------------------------------------------
  // Checkpoint flags.
  // ---------------------------------------------------------------------------

  /** The checkpoints passed are exactly those before `next`. */
  predicate FlagsMatch(cps: seq<Checkpoint>, next: nat)
  {
    next <= |cps| && forall i :: 0 <= i < |cps| ==> (cps[i].passed <==> i < next)
  }

  /** Marking the next checkpoint passed and advancing past it keeps the flags in step. */
  lemma MarkNextKeepsFlags(cps: seq<Checkpoint>, next: nat)
    requires FlagsMatch(cps, next) && next < |cps|
    ensures FlagsMatch(cps[next := cps[next].(passed := true)], next + 1)
  {
  }

  /** Cleared flags match a restarted checkpoint sequence. */
  lemma ClearedFlagsMatch(cps: seq<Checkpoint>)
    requires NonePassed(cps)
    ensures FlagsMatch(cps, 0)
  {
  }

  // ---------------------------------------------------------------------------
  // Distance to the next checkpoint.
  // ---------------------------------------------------------------------------

  function Midpoint(c: Checkpoint): Point
  {
    ((c.x1 + c.x2) as real / 2.0, (c.y1 + c.y2) as real / 2.0)
  }

  function Square(x: real): real { x * x }

  function SquaredDistance(p: Point, q: Point): real
  {
    Square(p.0 - q.0) + Square(p.1 - q.1)
  }

  /** `dist` is the Euclidean distance from `pos` to the next checkpoint's midpoint, when there
      is a next checkpoint. */
  predicate IsCheckpointDistance(next: nat, cps: seq<Checkpoint>, pos: Point, dist: real)
  {
    dist >= 0.0 && (next < |cps| ==> Square(dist) == SquaredDistance(pos, Midpoint(cps[next])))
  }

  /** Dividing by a positive limit: the quotient scales back, and it is at least 1 exactly when
      the value reaches the limit. */
  lemma Ratio(d: real, m: real)
    requires m > 0.0
    ensures (d / m) * m == d
    ensures d / m >= 1.0 <==> d >= m
    ensures d >= 0.0 ==> d / m >= 0.0
  {
    var q := d / m;
    assert q * m == d;
    assert q * m - m == (q - 1.0) * m;
    if q >= 1.0 {
      assert (q - 1.0) * m >= 0.0;
    } else {
      assert (q - 1.0) * m < 0.0;
    }
    if q < 0.0 {
      assert q * m < 0.0;
    }
  }

  /** The distance to the next checkpoint's midpoint, or None once every checkpoint is passed. */
  function DistanceToCheckpoint(next: nat, cps: seq<Checkpoint>, pos: Point, dist: real): (r: Option<real>)
    requires IsCheckpointDistance(next, cps, pos, dist)
    ensures r.Some? <==> next < |cps|
    ensures r.Some? ==> r.value >= 0.0 && Square(r.value) == SquaredDistance(pos, Midpoint(cps[next]))
  {
    if next < |cps| then Some(dist) else None
  }

  /** The observed checkpoint distance: the distance over the track's diagonal `diag`, capped at
      1, and 0 once every checkpoint is passed. */
  function NormalizedCheckpointDistance(next: nat, cps: seq<Checkpoint>, pos: Point, dist: real, diag: real): (r: real)
    requires IsCheckpointDistance(next, cps, pos, dist) && diag > 0.0
    ensures 0.0 <= r <= 1.0
    ensures next >= |cps| ==> r == 0.0
    ensures next < |cps| ==> (r == 1.0 <==> dist >= diag)
    ensures next < |cps| && dist < diag ==> r * diag == dist
  {
    match DistanceToCheckpoint(next, cps, pos, dist)
    case None => 0.0
    case Some(d) =>
      Ratio(d, diag);
      var ratio := d / diag;
      if ratio <= 1.0 then ratio else 1.0
  }

  /** A marched ray distance lies between 0 and its limit. */
  lemma RayDistanceInRange(walls: seq<Rect>, origin: Point, heading: (real, real), maxDistance: real, d: real)
    requires maxDistance >= 0.0 && IsRayDistance(walls, origin, heading, maxDistance, d)
    ensures 0.0 <= d <= maxDistance
  {
    if d != maxDistance {
      var k: nat :| d == (RayStep * k) as real && d < maxDistance;
    }
  }

  /** The sensor distances over MaxRaycastDistance; distances within the limit land in [0, 1]. */
  function NormalizedRays(distances: seq<real>): (r: seq<real>)
    ensures |r| == |distances|
    ensures forall i :: 0 <= i < |r| ==> r[i] * MaxRaycastDistance == distances[i]
    ensures forall i :: 0 <= i < |r| && 0.0 <= distances[i] <= MaxRaycastDistance ==> 0.0 <= r[i] <= 1.0
  {
    var r := seq(|distances|, i requires 0 <= i < |distances| => distances[i] / MaxRaycastDistance);
    assert forall i :: 0 <= i < |r| ==> r[i] * MaxRaycastDistance == distances[i] && (distances[i] >= 0.0 ==> r[i] >= 0.0) && (r[i] >= 1.0 <==> distances[i] >= MaxRaycastDistance) by {
      forall i | 0 <= i < |r| {
        Ratio(distances[i], MaxRaycastDistance);
      }
    }
    r
  }

  // ---------------------------------------------------------------------------
  // The environment.
  // ---------------------------------------------------------------------------

  class RacingEnv {
    const track: Track
    const car: AICar
    const maxSteps: int
    var currentStep: int
    var stepsWithoutProgress: int
    var nextCheckpoint: nat
    var lapsCompleted: nat

    function Counters(): Progress
      reads this
    {
      Progress(currentStep, stepsWithoutProgress, nextCheckpoint, lapsCompleted)
    }

    /** The checkpoint flags follow the next-checkpoint index, and the car's speed is in range. */
    ghost predicate Valid()
      reads this, track, car.body
    {
      FlagsMatch(track.checkpoints, nextCheckpoint) && SpeedInRange(car.body.speed)
    }

    /** Builds the track from an image's pixels and puts the car on the start, facing
        StartAngle. The start and finish line come from the image's yellow pixels and the
        checkpoints from its green traces, as TrackLoader.ProcessPixels extracts them. */
    constructor (pixels: array2<Pixel>, maxSteps: int)
      ensures fresh(track) && fresh(car) && fresh(car.body)
      ensures this.maxSteps == maxSteps && Counters() == Progress(0, 0, 0, 0)
      ensures track.width == pixels.Length1 && track.height == pixels.Length0
      ensures WallCover(pixels, track.walls) && CheckpointsWellFormed(pixels, track.checkpoints)
      ensures exists yellow ::
        YellowScan(pixels, yellow) &&
        track.startPosition == StartPosition(yellow, pixels.Length0) && track.finishLine == FinishLine(yellow)
      ensures exists traces :: CheckpointScan(pixels, traces) && track.checkpoints == CheckpointsOf(traces)
      ensures car.body.x == track.startPosition.0 as real && car.body.y == track.startPosition.1 as real
      ensures car.body.angle == StartAngle && car.body.speed == 0.0
      ensures Valid()
    {
      var data, yellow, traces := ProcessPixels(pixels);
      var t := new Track(None, None, Some(data));
      var c := new AICar(t.startPosition.0 as real, t.startPosition.1 as real);
      c.body.SetAngle(StartAngle);
      track := t;
      car := c;
      this.maxSteps := maxSteps;
      currentStep := 0;
      stepsWithoutProgress := 0;
      nextCheckpoint := 0;
      lapsCompleted := 0;
      ClearedFlagsMatch(t.checkpoints);
    }

    /** Returns the car to the start at rest facing StartAngle, clears every checkpoint and
        zeroes the counters. */
    method Reset()
      modifies this, track, car.body
      ensures Counters() == Progress(0, 0, 0, 0)
      ensures car.body.x == track.startPosition.0 as real && car.body.y == track.startPosition.1 as real
      ensures car.body.angle == StartAngle && car.body.speed == 0.0
      ensures SameShapes(track.checkpoints, old(track.checkpoints)) && NonePassed(track.checkpoints)
      ensures Valid()
    {
      car.body.SetPosition(track.startPosition.0 as real, track.startPosition.1 as real);
      car.body.SetAngle(StartAngle);
      car.body.Accelerate(-car.body.speed);
      nextCheckpoint := 0;
      lapsCompleted := 0;
      track.ResetCheckpoints();
      currentStep := 0;
      stepsWithoutProgress := 0;
      ClearedFlagsMatch(track.checkpoints);
    }

    /** Drives the car one frame with `action` and resolves collisions with the walls: the car
        first moves to `moved` as AICar.Update says, and is then pushed out of any wall it
        touches and stopped. */
    method Drive(action: int, dir: real -> (real, real)) returns (from: Point, to: Point, ghost moved: Point)
      modifies car, car.body
      ensures car.currentAction == action
      ensures from == (old(car.body.x), old(car.body.y)) && to == (car.body.x, car.body.y)
      ensures var effect := InputEffect(action, old(car.body.speed), old(car.body.angle));
        car.body.angle == effect.1 &&
        moved == Moved(from, Friction(effect.0), dir(effect.1))
      ensures var corners := BodyCorners(moved, dir(car.body.angle).0, dir(car.body.angle).1, car.body.width, car.body.height);
        if AnyPointInWalls(track.walls, corners) then
          var push := CollisionPush(corners, track.walls, dir(car.body.angle));
          to == (moved.0 + push.0, moved.1 + push.1) && car.body.speed == 0.0
        else
          to == moved && car.body.speed == Friction(InputEffect(action, old(car.body.speed), old(car.body.angle)).0)
      ensures SpeedInRange(old(car.body.speed)) ==> SpeedInRange(car.body.speed)
    {
      from := (car.body.x, car.body.y);
      ghost var speed0, angle0 := car.body.speed, car.body.angle;
      car.SetAction(action);
      car.Update(FrameTime, dir);
      moved := (car.body.x, car.body.y);
      if SpeedInRange(speed0) {
        InputKeepsSpeedRange(action, speed0, angle0);
        FrictionKeepsRange(InputEffect(action, speed0, angle0).0);
      }
      var collided := HandleCollision(car.body, track, dir);
      to := (car.body.x, car.body.y);
    }

    /** Tests the movement from `from` to `to` against the next checkpoint and, once every
        checkpoint is passed, the finish line, and updates the counters and flags. */
    method RecordCrossings(from: Point, to: Point) returns (crossed: bool)
      modifies this, track
      ensures crossed <==>
        old(nextCheckpoint) < |old(track.checkpoints)| && !old(track.checkpoints)[old(nextCheckpoint)].passed &&
        SegmentsIntersect(from, to, CheckpointStart(old(track.checkpoints)[old(nextCheckpoint)]),
                          CheckpointEnd(old(track.checkpoints)[old(nextCheckpoint)]))
      ensures Counters() ==
        Settle(old(Counters()), |old(track.checkpoints)|, crossed, track.CheckFinishLineCrossing(from, to))
      ensures LapCompleted(old(Counters()), |old(track.checkpoints)|, crossed, track.CheckFinishLineCrossing(from, to)) ==>
        SameShapes(track.checkpoints, old(track.checkpoints)) && NonePassed(track.checkpoints)
      ensures !LapCompleted(old(Counters()), |old(track.checkpoints)|, crossed, track.CheckFinishLineCrossing(from, to)) ==>
        track.checkpoints ==
          if crossed then old(track.checkpoints)[old(nextCheckpoint) := old(track.checkpoints)[old(nextCheckpoint)].(passed := true)]
          else old(track.checkpoints)
      ensures FlagsMatch(old(track.checkpoints), old(nextCheckpoint)) ==> FlagsMatch(track.checkpoints, nextCheckpoint)
    {
      ghost var cps := track.checkpoints;
      crossed := track.CheckCheckpointCrossing(from, to, nextCheckpoint);
      if crossed {
        if FlagsMatch(cps, nextCheckpoint) {
          MarkNextKeepsFlags(cps, nextCheckpoint);
        }
        nextCheckpoint := nextCheckpoint + 1;
        stepsWithoutProgress := 0;
      }
      if nextCheckpoint >= track.TotalCheckpoints() {
        if track.CheckFinishLineCrossing(from, to) {
          lapsCompleted := lapsCompleted + 1;
          nextCheckpoint := 0;
          track.ResetCheckpoints();
          ClearedFlagsMatch(track.checkpoints);
          stepsWithoutProgress := 0;
        }
      }
    }

    /** One step: count it, drive the car with `action` (to `moved`, then out of any wall),
        then record what the movement from `prev` to `curr` crossed. Episodes are never
        terminated, only truncated. */
    method Step(action: int, dir: real -> (real, real))
      returns (terminated: bool, truncated: bool, ghost prev: Point, ghost curr: Point, ghost moved: Point,
               ghost crossedNext: bool)
      modifies this, track, car, car.body
      ensures car.currentAction == action
      ensures prev == (old(car.body.x), old(car.body.y)) && curr == (car.body.x, car.body.y)
      ensures var effect := InputEffect(action, old(car.body.speed), old(car.body.angle));
        car.body.angle == effect.1 &&
        moved == Moved(prev, Friction(effect.0), dir(effect.1))
      ensures var corners := BodyCorners(moved, dir(car.body.angle).0, dir(car.body.angle).1, car.body.width, car.body.height);
        if AnyPointInWalls(track.walls, corners) then
          var push := CollisionPush(corners, track.walls, dir(car.body.angle));
          curr == (moved.0 + push.0, moved.1 + push.1) && car.body.speed == 0.0
        else
          curr == moved && car.body.speed == Friction(InputEffect(action, old(car.body.speed), old(car.body.angle)).0)
      ensures crossedNext <==>
        old(nextCheckpoint) < |old(track.checkpoints)| && !old(track.checkpoints)[old(nextCheckpoint)].passed &&
        SegmentsIntersect(prev, curr, CheckpointStart(old(track.checkpoints)[old(nextCheckpoint)]),
                          CheckpointEnd(old(track.checkpoints)[old(nextCheckpoint)]))
      ensures Counters() ==
        Advance(old(Counters()), |old(track.checkpoints)|, crossedNext, track.CheckFinishLineCrossing(prev, curr))
      ensures LapCompleted(old(Counters()), |old(track.checkpoints)|, crossedNext, track.CheckFinishLineCrossing(prev, curr)) ==>
        SameShapes(track.checkpoints, old(track.checkpoints)) && NonePassed(track.checkpoints)
      ensures !LapCompleted(old(Counters()), |old(track.checkpoints)|, crossedNext, track.CheckFinishLineCrossing(prev, curr)) ==>
        track.checkpoints ==
          if crossedNext then old(track.checkpoints)[old(nextCheckpoint) := old(track.checkpoints)[old(nextCheckpoint)].(passed := true)]
          else old(track.checkpoints)
      ensures !terminated
      ensures truncated <==> Truncated(Counters(), maxSteps)
      ensures old(Valid()) ==> Valid()
    {
      currentStep := currentStep + 1;
      stepsWithoutProgress := stepsWithoutProgress + 1;
      var from, to;
      from, to, moved := Drive(action, dir);
      prev, curr := from, to;
      crossedNext := RecordCrossings(from, to);
      terminated := false;
      truncated := false;
      if stepsWithoutProgress >= MaxStepsWithoutProgress {
        truncated := true;
      }
      if currentStep >= maxSteps {
        truncated := true;
      }
    }

    /** The observation: the seven sensor distances over MaxRaycastDistance, the speed over
        MaxSpeed, and the normalised distance to the next checkpoint. `dist` and `diag` are the
        Euclidean distance to the next checkpoint and the track's diagonal. */
    method Observe(dir: real -> (real, real), dist: real, diag: real)
      returns (rays: seq<real>, speed: real, checkpointDistance: real)
      requires IsCheckpointDistance(nextCheckpoint, track.checkpoints, (car.body.x, car.body.y), dist)
      requires diag > 0.0 && Square(diag) == Square(track.width as real) + Square(track.height as real)
      ensures |rays| == |RaycastAngles()|
      ensures forall i :: 0 <= i < |rays| ==>
        0.0 <= rays[i] <= 1.0 &&
        IsRayDistance(track.walls, (car.body.x, car.body.y), dir(car.body.angle + RaycastAngles()[i]),
                      MaxRaycastDistance, rays[i] * MaxRaycastDistance)
      ensures speed * MaxSpeed == car.body.speed
      ensures Valid() ==> -0.5 <= speed <= 1.0
      ensures checkpointDistance ==
        NormalizedCheckpointDistance(nextCheckpoint, track.checkpoints, (car.body.x, car.body.y), dist, diag)
    {
      var origin, heading := (car.body.x, car.body.y), car.body.angle;
      var distances, _ := car.body.GetRaycasts(track, MaxRaycastDistance, dir);
      forall i | 0 <= i < |distances|
        ensures 0.0 <= distances[i] <= MaxRaycastDistance
      {
        RayDistanceInRange(track.walls, origin, dir(heading + RaycastAngles()[i]), MaxRaycastDistance, distances[i]);
      }
      rays := NormalizedRays(distances);
      speed := car.body.speed / MaxSpeed;
      checkpointDistance := NormalizedCheckpointDistance(nextCheckpoint, track.checkpoints, origin, dist, diag);
    }
  }
}
