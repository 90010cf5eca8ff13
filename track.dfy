/**
 * The track model: the wall rectangles, the ordered checkpoints with their
 * "passed" flags, the start position and the optional start/finish line, with
 * the queries a simulation tick asks of them (collision, ray sensing,
 * checkpoint and finish-line crossing).
 */
module TrackModel {
  import opened Geometry

  const WallThickness: int := 20
  const CheckpointMargin: int := 50
  const DefaultWidth: int := 1200
  const DefaultHeight: int := 800
  /** The ray march samples every RayStep units. */
  const RayStep: int := 5

  // ---------------------------------------------------------------------------
  // Determinant (parametric) segment intersection, used for checkpoints.
  // The source tests `abs(denom) < 1e-10`; over reals the model tests `denom == 0`.
  // ---------------------------------------------------------------------------

  function Denominator(p0: Point, p1: Point, p2: Point, p3: Point): real
  {
    var s1x, s1y := p1.0 - p0.0, p1.1 - p0.1;
    var s2x, s2y := p3.0 - p2.0, p3.1 - p2.1;
    -s2x * s1y + s1x * s2y
  }

  /** Numerator of the parameter along p2-p3. */
  function NumeratorS(p0: Point, p1: Point, p2: Point): real
  {
    var s1x, s1y := p1.0 - p0.0, p1.1 - p0.1;
    -s1y * (p0.0 - p2.0) + s1x * (p0.1 - p2.1)
  }

  /** Numerator of the parameter along p0-p1. */
  function NumeratorT(p0: Point, p2: Point, p3: Point): real
  {
    var s2x, s2y := p3.0 - p2.0, p3.1 - p2.1;
    s2x * (p0.1 - p2.1) - s2y * (p0.0 - p2.0)
  }

  /** Segment p0-p1 meets segment p2-p3: the parameters s and t both lie in [0, 1]. */
  predicate SegmentsIntersect(p0: Point, p1: Point, p2: Point, p3: Point)
  {
    var denom := Denominator(p0, p1, p2, p3);
    if denom == 0.0 then false
    else
      var s := NumeratorS(p0, p1, p2) / denom;
      var t := NumeratorT(p0, p2, p3) / denom;
      0.0 <= s <= 1.0 && 0.0 <= t <= 1.0
  }

  /** Reference definition: the point at parameter t on p0-p1 is the point at parameter s on p2-p3. */
  predicate MeetAt(p0: Point, p1: Point, p2: Point, p3: Point, t: real, s: real)
  {
    p0.0 + t * (p1.0 - p0.0) == p2.0 + s * (p3.0 - p2.0) &&
    p0.1 + t * (p1.1 - p0.1) == p2.1 + s * (p3.1 - p2.1)
  }

  /** With a non-zero denominator the computed parameters solve the meeting equations. */
  lemma ParametersMeet(p0: Point, p1: Point, p2: Point, p3: Point)
    requires Denominator(p0, p1, p2, p3) != 0.0
    ensures MeetAt(p0, p1, p2, p3, NumeratorT(p0, p2, p3) / Denominator(p0, p1, p2, p3),
                   NumeratorS(p0, p1, p2) / Denominator(p0, p1, p2, p3))
  {
    var d := Denominator(p0, p1, p2, p3);
    var sn, tn := NumeratorS(p0, p1, p2), NumeratorT(p0, p2, p3);
    var s1x, s1y := p1.0 - p0.0, p1.1 - p0.1;
    var s2x, s2y := p3.0 - p2.0, p3.1 - p2.1;
    var a, b := p0.0 - p2.0, p0.1 - p2.1;
    assert d * a + tn * s1x - sn * s2x == 0.0;
    assert d * b + tn * s1y - sn * s2y == 0.0;
    var t, s := tn / d, sn / d;
    assert tn == t * d && sn == s * d;
    assert d * (a + t * s1x - s * s2x) == 0.0;
    assert d * (b + t * s1y - s * s2y) == 0.0;
  }

  /** With a non-zero denominator, any solution of the meeting equations is the computed one. */
  lemma MeetingIsUnique(p0: Point, p1: Point, p2: Point, p3: Point, t: real, s: real)
    requires Denominator(p0, p1, p2, p3) != 0.0
    requires MeetAt(p0, p1, p2, p3, t, s)
    ensures t == NumeratorT(p0, p2, p3) / Denominator(p0, p1, p2, p3)
    ensures s == NumeratorS(p0, p1, p2) / Denominator(p0, p1, p2, p3)
  {
    var d := Denominator(p0, p1, p2, p3);
    var s1x, s1y := p1.0 - p0.0, p1.1 - p0.1;
    var s2x, s2y := p3.0 - p2.0, p3.1 - p2.1;
    var a, b := p0.0 - p2.0, p0.1 - p2.1;
    assert t * s1x - s * s2x == -a;
    assert t * s1y - s * s2y == -b;
    assert (t * s1x - s * s2x) * s2y - (t * s1y - s * s2y) * s2x == t * d;
    assert t * d == NumeratorT(p0, p2, p3);
    assert (t * s1x - s * s2x) * s1y - (t * s1y - s * s2y) * s1x == s * d;
    assert s * d == NumeratorS(p0, p1, p2);
  }

  /** The determinant test holds iff the two segments share a point at parameters in [0, 1]
      and are not parallel. */
  lemma SegmentsIntersectMeaning(p0: Point, p1: Point, p2: Point, p3: Point)
    ensures SegmentsIntersect(p0, p1, p2, p3) <==>
            Denominator(p0, p1, p2, p3) != 0.0 &&
            exists t, s :: 0.0 <= t <= 1.0 && 0.0 <= s <= 1.0 && MeetAt(p0, p1, p2, p3, t, s)
  {
    var d := Denominator(p0, p1, p2, p3);
    if d != 0.0 {
      var t, s := NumeratorT(p0, p2, p3) / d, NumeratorS(p0, p1, p2) / d;
      ParametersMeet(p0, p1, p2, p3);
      if SegmentsIntersect(p0, p1, p2, p3) {
        assert 0.0 <= t <= 1.0 && 0.0 <= s <= 1.0 && MeetAt(p0, p1, p2, p3, t, s);
      }
      forall t', s' | 0.0 <= t' <= 1.0 && 0.0 <= s' <= 1.0 && MeetAt(p0, p1, p2, p3, t', s')
        ensures SegmentsIntersect(p0, p1, p2, p3)
      {
        MeetingIsUnique(p0, p1, p2, p3, t', s');
      }
    }
  }

  /** The concrete crossings of a vertical checkpoint from (100, 0) to (100, 200). */
  lemma CheckpointCrossingExamples()
    ensures SegmentsIntersect((90.0, 100.0), (110.0, 100.0), (100.0, 0.0), (100.0, 200.0))
    ensures !SegmentsIntersect((90.0, 100.0), (95.0, 100.0), (100.0, 0.0), (100.0, 200.0))
  {
  }

  // ---------------------------------------------------------------------------
  // Orientation (ccw) intersection, used for the finish line.
  // ---------------------------------------------------------------------------

  /** Twice the signed area of the triangle a, b, c. */
  function Orientation(a: Point, b: Point, c: Point): real
  {
    (b.0 - a.0) * (c.1 - a.1) - (b.1 - a.1) * (c.0 - a.0)
  }

  /** Strict counter-clockwise turn a -> b -> c. */
  predicate Ccw(a: Point, b: Point, c: Point)
  {
    (c.1 - a.1) * (b.0 - a.0) > (b.1 - a.1) * (c.0 - a.0)
  }

  predicate LinesIntersect(p1: Point, p2: Point, p3: Point, p4: Point)
  {
    Ccw(p1, p3, p4) != Ccw(p2, p3, p4) && Ccw(p1, p2, p3) != Ccw(p1, p2, p4)
  }

  /** Four collinear points never count as a crossing. */
  lemma CollinearNeverIntersects(p1: Point, p2: Point, p3: Point, p4: Point)
    requires Orientation(p1, p3, p4) == 0.0 && Orientation(p2, p3, p4) == 0.0
    requires Orientation(p1, p2, p3) == 0.0 && Orientation(p1, p2, p4) == 0.0
    ensures !LinesIntersect(p1, p2, p3, p4)
  {
    assert Ccw(p1, p3, p4) <==> Orientation(p1, p3, p4) > 0.0;
    assert Ccw(p2, p3, p4) <==> Orientation(p2, p3, p4) > 0.0;
  }

  /** Reversing the movement gives the same answer unless a finish-line endpoint lies on the
      movement's line. */
  lemma LinesIntersectDirectionFree(p1: Point, p2: Point, p3: Point, p4: Point)
    requires Orientation(p1, p2, p3) != 0.0 && Orientation(p1, p2, p4) != 0.0
    ensures LinesIntersect(p1, p2, p3, p4) == LinesIntersect(p2, p1, p3, p4)
  {
    assert Orientation(p2, p1, p3) == -Orientation(p1, p2, p3);
    assert Orientation(p2, p1, p4) == -Orientation(p1, p2, p4);
    assert Ccw(p1, p2, p3) <==> Orientation(p1, p2, p3) > 0.0;
    assert Ccw(p1, p2, p4) <==> Orientation(p1, p2, p4) > 0.0;
    assert Ccw(p2, p1, p3) <==> Orientation(p2, p1, p3) > 0.0;
    assert Ccw(p2, p1, p4) <==> Orientation(p2, p1, p4) > 0.0;
  }

  lemma UnitQuotient(n: real, d: real)
    requires d != 0.0
    requires (0.0 <= n <= d) || (d <= n <= 0.0)
    ensures 0.0 <= n / d <= 1.0
  {
    assert n / d * d == n;
  }

  /** A strict (ccw) crossing is also a determinant crossing: the finish-line test is the
      stricter of the two predicates. */
  lemma StrictCrossingIsCrossing(p1: Point, p2: Point, p3: Point, p4: Point)
    requires LinesIntersect(p1, p2, p3, p4)
    ensures SegmentsIntersect(p1, p2, p3, p4)
  {
    var a := Orientation(p3, p4, p1);
    var b := Orientation(p3, p4, p2);
    var c := Orientation(p1, p2, p3);
    var e := Orientation(p1, p2, p4);
    assert Ccw(p1, p3, p4) <==> a > 0.0;
    assert Ccw(p2, p3, p4) <==> b > 0.0;
    assert Ccw(p1, p2, p3) <==> c > 0.0;
    assert Ccw(p1, p2, p4) <==> e > 0.0;
    var d := Denominator(p1, p2, p3, p4);
    assert d == a - b;
    assert d == e - c;
    assert NumeratorT(p1, p3, p4) == a;
    assert NumeratorS(p1, p2, p3) == -c;
    UnitQuotient(a, d);
    UnitQuotient(-c, d);
  }

  /** The strict test is not the determinant test: a movement that starts exactly on the line crosses by the determinant test and not by the strict one. */
  lemma TouchingIsNotStrict()
    ensures SegmentsIntersect((100.0, 100.0), (110.0, 100.0), (100.0, 0.0), (100.0, 200.0))
    ensures !LinesIntersect((100.0, 100.0), (110.0, 100.0), (100.0, 0.0), (100.0, 200.0))
  {
  }

  // ---------------------------------------------------------------------------
  // Ray march.
  // ---------------------------------------------------------------------------

  /** The k-th sample of a ray from `origin` along `dir`, at distance k * RayStep. */
  function RaySample(origin: Point, dir: Point, k: nat): Point
  {
    var dist := (RayStep * k) as real;
    (origin.0 + dir.0 * dist, origin.1 + dir.1 * dist)
  }

  predicate RayHits(walls: seq<Rect>, origin: Point, dir: Point, k: nat)
  {
    PointInWalls(walls, RaySample(origin, dir, k))
  }

  /** `d` is what the march reports: the first sampled distance below `maxDistance` that lies
      in a wall, or `maxDistance` when no sample below it does. */
  ghost predicate IsRayDistance(walls: seq<Rect>, origin: Point, dir: Point, maxDistance: real, d: real)
  {
    (d == maxDistance &&
     forall k: nat :: (RayStep * k) as real < maxDistance ==> !RayHits(walls, origin, dir, k))
    ||
    (exists k: nat :: d == (RayStep * k) as real && d < maxDistance && RayHits(walls, origin, dir, k) &&
       forall j: nat :: j < k ==> !RayHits(walls, origin, dir, j))
  }

  /** The reported distance is determined by the walls, the ray and the limit. */
  lemma RayDistanceUnique(walls: seq<Rect>, origin: Point, dir: Point, maxDistance: real, d1: real, d2: real)
    requires IsRayDistance(walls, origin, dir, maxDistance, d1)
    requires IsRayDistance(walls, origin, dir, maxDistance, d2)
    ensures d1 == d2
  {
  }

  // ---------------------------------------------------------------------------
  // The synthetic default track.
  // ---------------------------------------------------------------------------

  /** Python's `v or d` for an optional integer argument: None and 0 both select the default. */
  function OrDefault(v: Option<int>, d: int): int
  {
    if v.None? || v.value == 0 then d else v.value
  }

  /** Four outer walls and one 200 x 100 inner obstacle centred on the track. */
  function DefaultWalls(width: int, height: int): seq<Rect>
  {
    [ Rect(0, 0, width, WallThickness),
      Rect(0, height - WallThickness, width, WallThickness),
      Rect(0, 0, WallThickness, height),
      Rect(width - WallThickness, 0, WallThickness, height),
      Rect(width / 2 - 100, height / 2 - 50, 200, 100) ]
  }

  /** Right, top, left and bottom checkpoints, in that order. */
  function DefaultCheckpoints(width: int, height: int): seq<Checkpoint>
  {
    var m := CheckpointMargin;
    [ Checkpoint(width - 200, m, width - 200, height - m, 0, false),
      Checkpoint(width - m, 150, m, 150, 1, false),
      Checkpoint(200, m, 200, height - m, 2, false),
      Checkpoint(width - m, height - 150, m, height - 150, 3, false) ]
  }

  /** The default track has five walls and four unpassed checkpoints with ids 0..3. */
  lemma DefaultTrackShape(width: int, height: int)
    ensures |DefaultWalls(width, height)| == 5
    ensures |DefaultCheckpoints(width, height)| == 4
    ensures DenseIds(DefaultCheckpoints(width, height)) && NonePassed(DefaultCheckpoints(width, height))
  {
  }

  /** Every point of the track's frame within 20 units of its border lies in an outer wall:
      the default track is closed. */
  lemma DefaultBorderIsWalled(width: int, height: int, p: Point)
    requires 0.0 <= p.0 <= width as real && 0.0 <= p.1 <= height as real
    requires p.0 <= WallThickness as real || p.0 >= (width - WallThickness) as real ||
             p.1 <= WallThickness as real || p.1 >= (height - WallThickness) as real
    ensures PointInWalls(DefaultWalls(width, height), p)
  {
    var walls := DefaultWalls(width, height);
    if p.1 <= WallThickness as real {
      assert InWall(walls[0], p);
    } else if p.1 >= (height - WallThickness) as real {
      assert InWall(walls[1], p);
    } else if p.0 <= WallThickness as real {
      assert InWall(walls[2], p);
    } else {
      assert InWall(walls[3], p);
    }
  }

  /** On a default track at least 402 wide and 42 high the start position is in no wall. */
  lemma DefaultStartIsClear(width: int, height: int)
    requires width >= 402 && height >= 42
    ensures !PointInWalls(DefaultWalls(width, height), (100.0, (height / 2) as real))
  {
    var walls := DefaultWalls(width, height);
    var p := (100.0, (height / 2) as real);
    forall j | 0 <= j < |walls| ensures !InWall(walls[j], p) {
    }
  }

  // ---------------------------------------------------------------------------
  // The track.
  // ---------------------------------------------------------------------------

  class Track {
    const width: int
    const height: int
    const walls: seq<Rect>
    var checkpoints: seq<Checkpoint>
    const startPosition: (int, int)
    const finishLine: Option<Segment>

    /** Built from extracted data when given, otherwise the synthetic default track. */
    constructor (width: Option<int>, height: Option<int>, data: Option<TrackData>)
      ensures data.Some? ==>
        this.width == data.value.width && this.height == data.value.height &&
        walls == data.value.walls && checkpoints == data.value.checkpoints &&
        startPosition == data.value.startPosition && finishLine == data.value.finishLine
      ensures data.None? ==>
        this.width == OrDefault(width, DefaultWidth) && this.height == OrDefault(height, DefaultHeight) &&
        walls == DefaultWalls(this.width, this.height) &&
        checkpoints == DefaultCheckpoints(this.width, this.height) &&
        startPosition == (100, this.height / 2) && finishLine == None
    {
      if data.Some? {
        this.width := data.value.width;
        this.height := data.value.height;
        walls := data.value.walls;
        checkpoints := data.value.checkpoints;
        startPosition := data.value.startPosition;
        finishLine := data.value.finishLine;
      } else {
        var w := OrDefault(width, DefaultWidth);
        var h := OrDefault(height, DefaultHeight);
        this.width := w;
        this.height := h;
        walls := DefaultWalls(w, h);
        checkpoints := DefaultCheckpoints(w, h);
        startPosition := (100, if height.None? || height.value == 0 then 400 else height.value / 2);
        finishLine := None;
      }
    }

    function TotalCheckpoints(): nat
      reads this
    {
      |checkpoints|
    }

    /** Tests the movement prev -> curr against checkpoint `nextId` only; a crossing marks
        that checkpoint passed and nothing else changes. */
    method CheckCheckpointCrossing(prev: Point, curr: Point, nextId: nat) returns (crossed: bool)
      modifies this
      ensures crossed <==>
        nextId < |old(checkpoints)| && !old(checkpoints)[nextId].passed &&
        SegmentsIntersect(prev, curr, CheckpointStart(old(checkpoints)[nextId]),
                          CheckpointEnd(old(checkpoints)[nextId]))
      ensures checkpoints ==
        if crossed then old(checkpoints)[nextId := old(checkpoints)[nextId].(passed := true)]
        else old(checkpoints)
    {
      if nextId >= |checkpoints| {
        return false;
      }
      var cp := checkpoints[nextId];
      if cp.passed {
        return false;
      }
      if SegmentsIntersect(prev, curr, CheckpointStart(cp), CheckpointEnd(cp)) {
        checkpoints := checkpoints[nextId := cp.(passed := true)];
        return true;
      }
      return false;
    }

    /** A crossing needs a finish line, and implies a determinant crossing of it. */
    function CheckFinishLineCrossing(prev: Point, curr: Point): (crossed: bool)
      ensures crossed ==> finishLine.Some?
      ensures crossed ==>
        SegmentsIntersect(prev, curr, (finishLine.value.x1 as real, finishLine.value.y1 as real),
                          (finishLine.value.x2 as real, finishLine.value.y2 as real))
    {
      match finishLine
      case None => false
      case Some(fl) =>
        var a, b := (fl.x1 as real, fl.y1 as real), (fl.x2 as real, fl.y2 as real);
        var r := LinesIntersect(prev, curr, a, b);
        if r then StrictCrossingIsCrossing(prev, curr, a, b); r else r
    }

    method ResetCheckpoints()
      modifies this
      ensures SameShapes(checkpoints, old(checkpoints))
      ensures NonePassed(checkpoints)
    {
      var i := 0;
      while i < |checkpoints|
        invariant 0 <= i <= |checkpoints|
        invariant SameShapes(checkpoints, old(checkpoints))
        invariant forall k :: 0 <= k < i ==> !checkpoints[k].passed
      {
        checkpoints := checkpoints[i := checkpoints[i].(passed := false)];
        i := i + 1;
      }
    }

    /** True iff some corner lies in some wall (inclusive bounds). */
    method CheckCollision(corners: seq<Point>) returns (hit: bool)
      ensures hit <==> AnyPointInWalls(walls, corners)
      ensures walls == [] ==> !hit
    {
      var i := 0;
      while i < |corners|
        invariant 0 <= i <= |corners|
        invariant forall i', j :: 0 <= i' < i && 0 <= j < |walls| ==> !InWall(walls[j], corners[i'])
      {
        var j := 0;
        while j < |walls|
          invariant 0 <= j <= |walls|
          invariant forall j' :: 0 <= j' < j ==> !InWall(walls[j'], corners[i])
        {
          if InWall(walls[j], corners[i]) {
            return true;
          }
          j := j + 1;
        }
        i := i + 1;
      }
      return false;
    }

    /** Marches from `origin` along the direction cosines `dir` in steps of RayStep. */
    method CastRay(origin: Point, dir: Point, maxDistance: real) returns (d: real)
      ensures IsRayDistance(walls, origin, dir, maxDistance, d)
      ensures d <= maxDistance
      ensures maxDistance > 0.0 && PointInWalls(walls, origin) ==> d == 0.0
    {
      var distance := 0;
      ghost var k: nat := 0;
      while distance as real < maxDistance
        invariant distance == RayStep * k
        invariant forall j: nat :: j < k ==> !RayHits(walls, origin, dir, j)
        invariant k > 0 ==> !PointInWalls(walls, origin)
        decreases maxDistance.Floor - distance
      {
        var check := (origin.0 + dir.0 * (distance as real), origin.1 + dir.1 * (distance as real));
        assert distance as real == (RayStep * k) as real;
        assert check.0 == RaySample(origin, dir, k).0;
        assert check.1 == RaySample(origin, dir, k).1;
        assert check == RaySample(origin, dir, k);
        var i := 0;
        while i < |walls|
          invariant 0 <= i <= |walls|
          invariant forall j :: 0 <= j < i ==> !InWall(walls[j], check)
        {
          if InWall(walls[i], check) {
            assert RayHits(walls, origin, dir, k);
            return distance as real;
          }
          i := i + 1;
        }
        assert RaySample(origin, dir, 0) == origin;
        distance := distance + RayStep;
        k := k + 1;
      }
      d := maxDistance;
      assert RaySample(origin, dir, 0) == origin;
    }
  }
}
