/**
 * Raster-to-geometry extraction: from a grid of RGB pixels (row-major, indexed
 * `pixels[y, x]`, 8-bit channels) to wall rectangles, checkpoint segments, the
 * start position and the optional start/finish line.
 *
 * Image decoding and the JSON cache are not part of this model: the grid is the input.
 */
module TrackLoader {
  import opened Geometry

  type Channel = c: int | 0 <= c < 256
  type Pixel = (Channel, Channel, Channel)
  /** A pixel position as (x, y). */
  type Cell = (int, int)

  // ---------------------------------------------------------------------------
  // Colour classes.
  // ---------------------------------------------------------------------------

  predicate IsBlack(p: Pixel) { p.0 < 50 && p.1 < 50 && p.2 < 50 }

  predicate IsGreen(p: Pixel) { p.1 > 200 && p.0 < 100 && p.2 < 100 }

  function IntAbs(v: int): int { if v < 0 then -v else v }

  /** The yellow test on integer channels: red and green within 30 of 255, blue below 50.
      The source applies `abs(r - 255)` to NumPy uint8 values, where `r - 255` wraps modulo
      256; that reading is IsYellowUint8 below. The model uses this intended test. */
  predicate IsYellow(p: Pixel)
  {
    IntAbs(p.0 - 255) < 30 && IntAbs(p.1 - 255) < 30 && p.2 < 50
  }

  /** The yellow test as evaluated on uint8 channels: `r - 255` is `(r + 1) mod 256`. */
  predicate IsYellowUint8(p: Pixel)
  {
    (p.0 - 255) % 256 < 30 && (p.1 - 255) % 256 < 30 && p.2 < 50
  }

  /** On uint8 channels a pure black wall pixel passes the yellow test. */
  lemma BlackPassesUint8YellowTest()
    ensures IsBlack((0, 0, 0)) && IsYellowUint8((0, 0, 0)) && !IsYellow((0, 0, 0))
  {
  }

  /** With the intended test the three colour classes are pairwise exclusive, so no pixel is
      both a wall and part of the finish line or a checkpoint. */
  lemma ColourClassesExclusive(p: Pixel)
    ensures !(IsYellow(p) && IsBlack(p))
    ensures !(IsYellow(p) && IsGreen(p))
    ensures !(IsBlack(p) && IsGreen(p))
  {
  }

  // ---------------------------------------------------------------------------
  // Grid helpers.
  // ---------------------------------------------------------------------------

  predicate InGrid<T>(g: array2<T>, c: Cell)
  {
    0 <= c.0 < g.Length1 && 0 <= c.1 < g.Length0
  }

  /** a comes strictly before b in a row-major scan. */
  predicate RowMajorBefore(a: Cell, b: Cell)
  {
    a.1 < b.1 || (a.1 == b.1 && a.0 < b.0)
  }

  // ---------------------------------------------------------------------------
  // Start position and finish line.
  // ---------------------------------------------------------------------------

  /** `yellow` lists exactly the yellow pixels of the grid, in row-major order. */
  ghost predicate YellowScan(pixels: array2<Pixel>, yellow: seq<Cell>)
    reads pixels
  {
    (forall k :: 0 <= k < |yellow| ==>
       InGrid(pixels, yellow[k]) && IsYellow(pixels[yellow[k].1, yellow[k].0])) &&
    (forall y, x :: 0 <= y < pixels.Length0 && 0 <= x < pixels.Length1 && IsYellow(pixels[y, x]) ==>
       (x, y) in yellow) &&
    (forall i, j :: 0 <= i < j < |yellow| ==> RowMajorBefore(yellow[i], yellow[j]))
  }

  method FindYellowPixels(pixels: array2<Pixel>) returns (yellow: seq<Cell>)
    ensures YellowScan(pixels, yellow)
  {
    var height, width := pixels.Length0, pixels.Length1;
    yellow := [];
    var y := 0;
    while y < height
      invariant 0 <= y <= height
      invariant forall k :: 0 <= k < |yellow| ==>
        InGrid(pixels, yellow[k]) && IsYellow(pixels[yellow[k].1, yellow[k].0]) &&
        RowMajorBefore(yellow[k], (0, y))
      invariant forall y', x' :: 0 <= y' < y && 0 <= x' < width && IsYellow(pixels[y', x']) ==>
        (x', y') in yellow
      invariant forall i, j :: 0 <= i < j < |yellow| ==> RowMajorBefore(yellow[i], yellow[j])
    {
      var x := 0;
      while x < width
        invariant 0 <= x <= width
        invariant forall k :: 0 <= k < |yellow| ==>
          InGrid(pixels, yellow[k]) && IsYellow(pixels[yellow[k].1, yellow[k].0]) &&
          RowMajorBefore(yellow[k], (x, y))
        invariant forall y', x' ::
          (0 <= y' < height && 0 <= x' < width && RowMajorBefore((x', y'), (x, y)) && IsYellow(pixels[y', x'])) ==>
          (x', y') in yellow
        invariant forall i, j :: 0 <= i < j < |yellow| ==> RowMajorBefore(yellow[i], yellow[j])
      {
        if IsYellow(pixels[y, x]) {
          yellow := yellow + [(x, y)];
        }
        x := x + 1;
      }
      y := y + 1;
    }
  }

  function SumX(cells: seq<Cell>): int
  {
    if cells == [] then 0 else SumX(cells[..|cells| - 1]) + cells[|cells| - 1].0
  }

  function SumY(cells: seq<Cell>): int
  {
    if cells == [] then 0 else SumY(cells[..|cells| - 1]) + cells[|cells| - 1].1
  }

  /** The integer-floored centroid of the yellow pixels, or (100, height // 2) without any. */
  function StartPosition(yellow: seq<Cell>, height: int): (int, int)
  {
    if yellow == [] then (100, height / 2)
    else (SumX(yellow) / |yellow|, SumY(yellow) / |yellow|)
  }

  /** From the first to the last yellow pixel of the scan, if there is one. */
  function FinishLine(yellow: seq<Cell>): Option<Segment>
  {
    if yellow == [] then None
    else Some(Segment(yellow[0].0, yellow[0].1, yellow[|yellow| - 1].0, yellow[|yellow| - 1].1))
  }

  lemma MulSucc(n: int, a: int)
    ensures (n + 1) * a == n * a + a
  {
  }

  lemma {:induction false} SumXBounded(cells: seq<Cell>, lo: int, hi: int)
    requires forall k :: 0 <= k < |cells| ==> lo <= cells[k].0 <= hi
    ensures |cells| * lo <= SumX(cells) <= |cells| * hi
  {
    if cells != [] {
      var n := |cells| - 1;
      SumXBounded(cells[..n], lo, hi);
      MulSucc(n, lo);
      MulSucc(n, hi);
    }
  }

  lemma {:induction false} SumYBounded(cells: seq<Cell>, lo: int, hi: int)
    requires forall k :: 0 <= k < |cells| ==> lo <= cells[k].1 <= hi
    ensures |cells| * lo <= SumY(cells) <= |cells| * hi
  {
    if cells != [] {
      var n := |cells| - 1;
      SumYBounded(cells[..n], lo, hi);
      MulSucc(n, lo);
      MulSucc(n, hi);
    }
  }

  lemma MulMonotone(n: int, a: int, b: int)
    requires n >= 0 && a <= b
    ensures n * a <= n * b
  {
    assert n * b - n * a == n * (b - a);
  }

  lemma QuotientBounded(sum: int, n: int, lo: int, hi: int)
    requires n > 0 && n * lo <= sum <= n * hi
    ensures lo <= sum / n <= hi
  {
    var q, r := sum / n, sum % n;
    assert sum == n * q + r && 0 <= r < n;
    if q < lo {
      assert n * (q + 1) == n * q + n;
      MulMonotone(n, q + 1, lo);
    }
    if q > hi {
      assert n * (hi + 1) == n * hi + n;
      MulMonotone(n, hi + 1, q);
    }
  }

  /** The start position derived from the yellow pixels lies inside their bounding box, hence
      inside the grid. */
  lemma StartInsideYellowBox(yellow: seq<Cell>, height: int, lo: Cell, hi: Cell)
    requires yellow != []
    requires forall k :: 0 <= k < |yellow| ==> lo.0 <= yellow[k].0 <= hi.0 && lo.1 <= yellow[k].1 <= hi.1
    ensures lo.0 <= StartPosition(yellow, height).0 <= hi.0
    ensures lo.1 <= StartPosition(yellow, height).1 <= hi.1
  {
    SumXBounded(yellow, lo.0, hi.0);
    SumYBounded(yellow, lo.1, hi.1);
    QuotientBounded(SumX(yellow), |yellow|, lo.0, hi.0);
    QuotientBounded(SumY(yellow), |yellow|, lo.1, hi.1);
  }

  /** The finish line runs from the row-major first to the row-major last yellow pixel. */
  lemma FinishLineIsScanExtremes(pixels: array2<Pixel>, yellow: seq<Cell>, x: int, y: int)
    requires YellowScan(pixels, yellow)
    requires 0 <= y < pixels.Length0 && 0 <= x < pixels.Length1 && IsYellow(pixels[y, x])
    ensures FinishLine(yellow).Some?
    ensures var fl := FinishLine(yellow).value;
      ((fl.x1, fl.y1) == (x, y) || RowMajorBefore((fl.x1, fl.y1), (x, y))) &&
      ((fl.x2, fl.y2) == (x, y) || RowMajorBefore((x, y), (fl.x2, fl.y2)))
  {
    assert (x, y) in yellow;
    var k :| 0 <= k < |yellow| && yellow[k] == (x, y);
    if k > 0 {
      assert RowMajorBefore(yellow[0], yellow[k]);
    }
    if k < |yellow| - 1 {
      assert RowMajorBefore(yellow[k], yellow[|yellow| - 1]);
    }
  }

  // ---------------------------------------------------------------------------
  // Walls: greedy maximal-rectangle cover of the black pixels.
  // ---------------------------------------------------------------------------

  /** Pixel (x, y) is one of the rectangle's pixels. */
  predicate Covers(r: Rect, x: int, y: int)
  {
    r.x <= x < r.x + r.width && r.y <= y < r.y + r.height
  }

  predicate RectInGrid(r: Rect, width: int, height: int)
  {
    0 <= r.x && r.x + r.width <= width && 0 <= r.y && r.y + r.height <= height &&
    r.width >= 1 && r.height >= 1
  }

  /** The two rectangles share no pixel. */
  predicate Disjoint(a: Rect, b: Rect)
  {
    a.x + a.width <= b.x || b.x + b.width <= a.x || a.y + a.height <= b.y || b.y + b.height <= a.y
  }

  /** A pixel a new wall rectangle may take: black and not yet claimed. */
  predicate WallFree(pixels: array2<Pixel>, visited: array2<bool>, x: int, y: int)
    reads pixels, visited
    requires visited.Length0 == pixels.Length0 && visited.Length1 == pixels.Length1
    requires 0 <= y < pixels.Length0 && 0 <= x < pixels.Length1
  {
    IsBlack(pixels[y, x]) && !visited[y, x]
  }

  /** Every pixel of row y from x0 up to x1 (exclusive) is free. */
  predicate RowFree(pixels: array2<Pixel>, visited: array2<bool>, x0: int, x1: int, y: int)
    reads pixels, visited
    requires visited.Length0 == pixels.Length0 && visited.Length1 == pixels.Length1
    requires 0 <= x0 && x1 <= pixels.Length1 && 0 <= y < pixels.Length0
  {
    forall x :: x0 <= x < x1 ==> WallFree(pixels, visited, x, y)
  }

  lemma OverlapSharesPixel(a: Rect, b: Rect)
    requires !Disjoint(a, b)
    requires a.width >= 1 && a.height >= 1 && b.width >= 1 && b.height >= 1
    ensures var x, y := if a.x < b.x then b.x else a.x, if a.y < b.y then b.y else a.y;
      Covers(a, x, y) && Covers(b, x, y)
  {
  }

  /** The walls are in the grid, black, pairwise disjoint, and cover every black pixel. */
  ghost predicate WallCover(pixels: array2<Pixel>, walls: seq<Rect>)
    reads pixels
  {
    (forall k :: 0 <= k < |walls| ==> RectInGrid(walls[k], pixels.Length1, pixels.Length0)) &&
    (forall k, y, x ::
       (0 <= k < |walls| && 0 <= y < pixels.Length0 && 0 <= x < pixels.Length1 && Covers(walls[k], x, y)) ==>
       IsBlack(pixels[y, x])) &&
    (forall i, j :: 0 <= i < j < |walls| ==> Disjoint(walls[i], walls[j])) &&
    (forall y, x :: 0 <= y < pixels.Length0 && 0 <= x < pixels.Length1 && IsBlack(pixels[y, x]) ==>
       exists k :: 0 <= k < |walls| && Covers(walls[k], x, y))
  }

  /** Under WallCover every black pixel lies in exactly one wall and every wall pixel is black. */
  lemma WallCoverIsPartition(pixels: array2<Pixel>, walls: seq<Rect>, x: int, y: int)
    requires WallCover(pixels, walls)
    requires 0 <= y < pixels.Length0 && 0 <= x < pixels.Length1
    ensures IsBlack(pixels[y, x]) <==> exists k :: 0 <= k < |walls| && Covers(walls[k], x, y)
    ensures forall i, j ::
      (0 <= i < |walls| && 0 <= j < |walls| && Covers(walls[i], x, y) && Covers(walls[j], x, y)) ==> i == j
  {
  }

  /** Grows a rectangle from (sx, sy): as far right as the first row stays free, then as far
      down as whole rows of that width stay free; marks exactly its pixels visited. */
  method ExtractWallRect(pixels: array2<Pixel>, visited: array2<bool>, sx: int, sy: int, width: int, height: int)
    returns (r: Option<Rect>)
    requires width == pixels.Length1 && height == pixels.Length0
    requires visited.Length0 == height && visited.Length1 == width
    requires 0 <= sx < width && 0 <= sy < height
    modifies visited
    ensures r.None? <==> !old(WallFree(pixels, visited, sx, sy))
    ensures r.Some? ==> r.value.x == sx && r.value.y == sy && RectInGrid(r.value, width, height)
    ensures r.Some? ==> forall y, x :: 0 <= y < height && 0 <= x < width && Covers(r.value, x, y) ==>
      IsBlack(pixels[y, x]) && !old(visited[y, x])
    ensures r.Some? ==> sx + r.value.width == width || !WallFree(pixels, visited, sx + r.value.width, sy)
    ensures r.Some? ==> sy + r.value.height == height || !RowFree(pixels, visited, sx, sx + r.value.width, sy + r.value.height)
    ensures forall y, x :: 0 <= y < height && 0 <= x < width ==>
      visited[y, x] == (old(visited[y, x]) || (r.Some? && Covers(r.value, x, y)))
  {
    // Widest free run along the first row.
    var rectWidth := 0;
    var x := sx;
    while x < width
      invariant sx <= x <= width && rectWidth == x - sx
      invariant forall x' :: sx <= x' < x ==> WallFree(pixels, visited, x', sy)
    {
      if IsBlack(pixels[sy, x]) && !visited[sy, x] {
        rectWidth := rectWidth + 1;
      } else {
        break;
      }
      x := x + 1;
    }
    if rectWidth == 0 {
      return None;
    }
    assert sx + rectWidth == width || !WallFree(pixels, visited, sx + rectWidth, sy);
    ghost var badX := sx;

    // Tallest stack of rows that are free over the whole width.
    var rectHeight := 0;
    var y := sy;
    while y < height
      invariant sy <= y <= height && rectHeight == y - sy
      invariant forall y', x' :: sy <= y' < y && sx <= x' < sx + rectWidth ==> WallFree(pixels, visited, x', y')
    {
      var valid := true;
      ghost var bad := sx;
      var x := sx;
      while x < sx + rectWidth
        invariant sx <= x <= sx + rectWidth
        invariant valid
        invariant forall x' :: sx <= x' < x ==> WallFree(pixels, visited, x', y)
      {
        if x >= width {
          valid := false;
          break;
        }
        if !(IsBlack(pixels[y, x])) || visited[y, x] {
          valid := false;
          bad := x;
          break;
        }
        x := x + 1;
      }
      if valid {
        rectHeight := rectHeight + 1;
      } else {
        assert sx <= bad < sx + rectWidth && !WallFree(pixels, visited, bad, y);
        badX := bad;
        break;
      }
      y := y + 1;
    }
    if rectHeight == 0 {
      return None;
    }
    assert sy + rectHeight == height ||
      (sx <= badX < sx + rectWidth && !WallFree(pixels, visited, badX, sy + rectHeight));
    ghost var bottomBlocked := sy + rectHeight == height || !RowFree(pixels, visited, sx, sx + rectWidth, sy + rectHeight);
    assert bottomBlocked;
    assert forall y, x :: 0 <= y < height && 0 <= x < width && Covers(Rect(sx, sy, rectWidth, rectHeight), x, y) ==>
      WallFree(pixels, visited, x, y);

    // Mark the rectangle visited.
    var my := sy;
    while my < sy + rectHeight
      invariant sy <= my <= sy + rectHeight
      invariant forall y, x :: 0 <= y < height && 0 <= x < width ==>
        visited[y, x] == (old(visited[y, x]) || (sy <= y < my && sx <= x < sx + rectWidth))
    {
      var mx := sx;
      while mx < sx + rectWidth
        invariant sx <= mx <= sx + rectWidth
        invariant forall y, x :: 0 <= y < height && 0 <= x < width ==>
          visited[y, x] == (old(visited[y, x]) || (sy <= y < my && sx <= x < sx + rectWidth) ||
                            (y == my && sx <= x < mx))
      {
        if my < height && mx < width {
          visited[my, mx] := true;
        }
        mx := mx + 1;
      }
      my := my + 1;
    }
    assert sy + rectHeight == height || !WallFree(pixels, visited, badX, sy + rectHeight);
    return Some(Rect(sx, sy, rectWidth, rectHeight));
  }

  /** What the wall scan keeps: WallCover without completeness, and the visited flags are
      exactly the pixels of the walls found so far. */
  ghost predicate WallsSoFar(pixels: array2<Pixel>, visited: array2<bool>, walls: seq<Rect>)
    reads pixels, visited
    requires visited.Length0 == pixels.Length0 && visited.Length1 == pixels.Length1
  {
    (forall k :: 0 <= k < |walls| ==> RectInGrid(walls[k], pixels.Length1, pixels.Length0)) &&
    (forall k, y, x ::
       (0 <= k < |walls| && 0 <= y < pixels.Length0 && 0 <= x < pixels.Length1 && Covers(walls[k], x, y)) ==>
       IsBlack(pixels[y, x])) &&
    (forall i, j :: 0 <= i < j < |walls| ==> Disjoint(walls[i], walls[j])) &&
    (forall y, x :: 0 <= y < pixels.Length0 && 0 <= x < pixels.Length1 ==>
       (visited[y, x] <==> exists k :: 0 <= k < |walls| && Covers(walls[k], x, y)))
  }

  /** The scan's step at a free black pixel: grow a rectangle there and record it. */
  method ClaimWall(pixels: array2<Pixel>, visited: array2<bool>, walls: seq<Rect>, x: int, y: int)
    returns (walls': seq<Rect>, r: Rect)
    requires visited.Length0 == pixels.Length0 && visited.Length1 == pixels.Length1
    requires 0 <= y < pixels.Length0 && 0 <= x < pixels.Length1
    requires WallsSoFar(pixels, visited, walls) && WallFree(pixels, visited, x, y)
    modifies visited
    ensures walls' == walls + [r]
    ensures r.x == x && r.y == y && RectInGrid(r, pixels.Length1, pixels.Length0)
    ensures forall y', x' :: 0 <= y' < pixels.Length0 && 0 <= x' < pixels.Length1 && Covers(r, x', y') ==>
      IsBlack(pixels[y', x']) && !old(visited[y', x'])
    ensures x + r.width == pixels.Length1 || !WallFree(pixels, visited, x + r.width, y)
    ensures y + r.height == pixels.Length0 || !RowFree(pixels, visited, x, x + r.width, y + r.height)
    ensures WallsSoFar(pixels, visited, walls') && visited[y, x]
    ensures forall y', x' :: 0 <= y' < pixels.Length0 && 0 <= x' < pixels.Length1 ==>
      visited[y', x'] == (old(visited[y', x']) || Covers(r, x', y'))
  {
    var wallRect := ExtractWallRect(pixels, visited, x, y, pixels.Length1, pixels.Length0);
    r := wallRect.value;
    forall k | 0 <= k < |walls| ensures Disjoint(walls[k], r) {
      if !Disjoint(walls[k], r) {
        OverlapSharesPixel(walls[k], r);
        assert false;
      }
    }
    walls' := walls + [r];
    forall y', x' | 0 <= y' < pixels.Length0 && 0 <= x' < pixels.Length1
      ensures visited[y', x'] <==> exists k :: 0 <= k < |walls'| && Covers(walls'[k], x', y')
    {
      if Covers(r, x', y') {
        assert Covers(walls'[|walls|], x', y');
      } else if old(visited[y', x']) {
        var k :| 0 <= k < |walls| && Covers(walls[k], x', y');
        assert walls'[k] == walls[k];
      } else {
        assert forall k :: 0 <= k < |walls| ==> walls'[k] == walls[k];
      }
    }
    assert Covers(r, x, y);
  }

  /** Scans the grid row by row and takes a greedy rectangle at every unvisited black pixel. */
  method ExtractWalls(pixels: array2<Pixel>) returns (walls: seq<Rect>)
    ensures WallCover(pixels, walls)
  {
    var height, width := pixels.Length0, pixels.Length1;
    var visited := new bool[height, width]((_, _) => false);
    walls := [];
    var y := 0;
    while y < height
      invariant 0 <= y <= height
      invariant WallsSoFar(pixels, visited, walls)
      invariant forall y', x' :: (0 <= y' < y && 0 <= x' < width && IsBlack(pixels[y', x'])) ==> visited[y', x']
    {
      var x := 0;
      while x < width
        invariant 0 <= x <= width
        invariant WallsSoFar(pixels, visited, walls)
        invariant forall y', x' ::
          (0 <= y' < height && 0 <= x' < width && RowMajorBefore((x', y'), (x, y)) && IsBlack(pixels[y', x'])) ==>
          visited[y', x']
      {
        if !visited[y, x] && IsBlack(pixels[y, x]) {
          var wall;
          walls, wall := ClaimWall(pixels, visited, walls, x, y);
        }
        x := x + 1;
      }
      y := y + 1;
    }
  }

  // ---------------------------------------------------------------------------
  // Checkpoints: greedy 8-neighbour tracing of green pixels.
  // ---------------------------------------------------------------------------

  /** The neighbour offsets in the order the trace tries them. */
  const Directions: seq<(int, int)> := [(0, 1), (1, 0), (0, -1), (-1, 0), (1, 1), (-1, -1), (1, -1), (-1, 1)]

  function Neighbour(c: Cell, d: nat): Cell
    requires d < |Directions|
  {
    (c.0 + Directions[d].0, c.1 + Directions[d].1)
  }

  /** b is one of the eight pixels around a. */
  predicate Adjacent(a: Cell, b: Cell)
  {
    a != b && -1 <= b.0 - a.0 <= 1 && -1 <= b.1 - a.1 <= 1
  }

  function Cells(s: seq<Cell>): set<Cell>
  {
    set c | c in s
  }

  /** The cells whose visited flag is set. */
  ghost predicate VisitedAre(visited: array2<bool>, claimed: set<Cell>)
    reads visited
  {
    forall y, x :: 0 <= y < visited.Length0 && 0 <= x < visited.Length1 ==>
      (visited[y, x] <==> (x, y) in claimed)
  }

  /** A green pixel of the grid. */
  predicate IsGreenAt(pixels: array2<Pixel>, c: Cell)
    reads pixels
  {
    InGrid(pixels, c) && IsGreen(pixels[c.1, c.0])
  }

  /** A green pixel in the grid that is not yet claimed by any trace. */
  predicate Unclaimed(pixels: array2<Pixel>, claimed: set<Cell>, c: Cell)
    reads pixels
  {
    IsGreenAt(pixels, c) && c !in claimed
  }

  /** The first direction, from the d-th on, whose neighbour of c is unclaimed. */
  function FirstFreeNeighbour(pixels: array2<Pixel>, claimed: set<Cell>, c: Cell, d: nat): (r: Option<Cell>)
    reads pixels
    requires d <= |Directions|
    decreases |Directions| - d
    ensures r.Some? ==> Adjacent(c, r.value) && Unclaimed(pixels, claimed, r.value)
  {
    if d == |Directions| then None
    else if Unclaimed(pixels, claimed, Neighbour(c, d)) then Some(Neighbour(c, d))
    else FirstFreeNeighbour(pixels, claimed, c, d + 1)
  }

  /** The search fails exactly when no remaining direction leads to an unclaimed pixel; when it
      succeeds, every earlier direction was tried and rejected. */
  lemma {:induction false} FirstFreeNeighbourIsFirst(pixels: array2<Pixel>, claimed: set<Cell>, c: Cell, d: nat)
    requires d <= |Directions|
    decreases |Directions| - d
    ensures FirstFreeNeighbour(pixels, claimed, c, d).None? <==>
      forall e :: d <= e < |Directions| ==> !Unclaimed(pixels, claimed, Neighbour(c, e))
    ensures FirstFreeNeighbour(pixels, claimed, c, d).Some? ==>
      exists e :: d <= e < |Directions| && FirstFreeNeighbour(pixels, claimed, c, d).value == Neighbour(c, e) &&
        forall e' :: d <= e' < e ==> !Unclaimed(pixels, claimed, Neighbour(c, e'))
  {
    if d < |Directions| && !Unclaimed(pixels, claimed, Neighbour(c, d)) {
      FirstFreeNeighbourIsFirst(pixels, claimed, c, d + 1);
    }
  }

  /** Step k of `line` goes to the first unclaimed neighbour, where the claimed cells are those
      claimed before the trace plus the trace up to step k. */
  ghost predicate GreedyStep(pixels: array2<Pixel>, claimed: set<Cell>, line: seq<Cell>, k: int)
    reads pixels
    requires 0 <= k < |line| - 1
  {
    FirstFreeNeighbour(pixels, claimed + Cells(line[..k + 1]), line[k], 0) == Some(line[k + 1])
  }

  /** Every step of `line` is greedy. */
  ghost predicate GreedyTrace(pixels: array2<Pixel>, claimed: set<Cell>, line: seq<Cell>)
    reads pixels
  {
    forall k :: 0 <= k < |line| - 1 ==> GreedyStep(pixels, claimed, line, k)
  }

  /** A greedy trace walks 8-connected green pixels, never revisits a pixel, and never enters a
      pixel claimed before it started. */
  lemma GreedyTraceIsSimplePath(pixels: array2<Pixel>, claimed: set<Cell>, line: seq<Cell>)
    requires GreedyTrace(pixels, claimed, line)
    ensures forall k :: 0 <= k < |line| - 1 ==> Adjacent(line[k], line[k + 1])
    ensures forall k :: 1 <= k < |line| ==>
      InGrid(pixels, line[k]) && line[k] !in claimed && IsGreen(pixels[line[k].1, line[k].0])
    ensures forall i, j :: 0 <= i < j < |line| ==> line[i] != line[j]
  {
    forall k | 0 <= k < |line| - 1 ensures Adjacent(line[k], line[k + 1]) {
      assert GreedyStep(pixels, claimed, line, k);
    }
    forall k | 1 <= k < |line|
      ensures InGrid(pixels, line[k]) && line[k] !in claimed && IsGreen(pixels[line[k].1, line[k].0])
    {
      assert GreedyStep(pixels, claimed, line, k - 1);
    }
    forall i, j | 0 <= i < j < |line| ensures line[i] != line[j] {
      assert GreedyStep(pixels, claimed, line, j - 1);
      assert line[i] in line[..j];
    }
  }

  lemma GreedyTraceExtends(pixels: array2<Pixel>, claimed: set<Cell>, line: seq<Cell>, next: Cell)
    requires line != [] && GreedyTrace(pixels, claimed, line)
    requires FirstFreeNeighbour(pixels, claimed + Cells(line), line[|line| - 1], 0) == Some(next)
    ensures GreedyTrace(pixels, claimed, line + [next])
  {
    var longer := line + [next];
    forall k | 0 <= k < |longer| - 1
      ensures GreedyStep(pixels, claimed, longer, k)
    {
      if k < |line| - 1 {
        assert GreedyStep(pixels, claimed, line, k);
        assert longer[..k + 1] == line[..k + 1];
        assert longer[k] == line[k] && longer[k + 1] == line[k + 1];
      } else {
        assert longer[..k + 1] == line;
      }
    }
  }

  lemma CellsAppend(line: seq<Cell>, next: Cell)
    ensures Cells(line + [next]) == Cells(line) + {next}
  {
  }

  /** Sets one visited flag, keeping the ghost set of claimed cells in step. */
  method MarkClaimed(visited: array2<bool>, ghost claimed: set<Cell>, x: int, y: int)
    requires 0 <= y < visited.Length0 && 0 <= x < visited.Length1
    requires VisitedAre(visited, claimed)
    modifies visited
    ensures VisitedAre(visited, claimed + {(x, y)})
  {
    visited[y, x] := true;
  }

  function Max(a: int, b: int): int { if a < b then b else a }

  /** One step of the trace: scans Directions in order for an in-grid, unvisited, green pixel. */
  method NextTracePixel(pixels: array2<Pixel>, visited: array2<bool>, ghost claimed: set<Cell>, cx: int, cy: int)
    returns (next: Option<Cell>)
    requires visited.Length0 == pixels.Length0 && visited.Length1 == pixels.Length1
    requires VisitedAre(visited, claimed)
    ensures next == FirstFreeNeighbour(pixels, claimed, (cx, cy), 0)
  {
    var d := 0;
    while d < |Directions|
      invariant 0 <= d <= |Directions|
      invariant FirstFreeNeighbour(pixels, claimed, (cx, cy), 0) == FirstFreeNeighbour(pixels, claimed, (cx, cy), d)
    {
      var nx, ny := cx + Directions[d].0, cy + Directions[d].1;
      if 0 <= nx < pixels.Length1 && 0 <= ny < pixels.Length0 {
        if !visited[ny, nx] {
          if IsGreen(pixels[ny, nx]) {
            return Some((nx, ny));
          }
        }
      }
      d := d + 1;
    }
    return None;
  }

  /** Follows green pixels from (sx, sy), for at most max(width, height) steps, and marks the
      trace visited. */
  method TraceCheckpointLine(pixels: array2<Pixel>, visited: array2<bool>, ghost claimed: set<Cell>,
                             sx: int, sy: int, width: int, height: int)
    returns (line: seq<Cell>)
    requires width == pixels.Length1 && height == pixels.Length0
    requires visited.Length0 == height && visited.Length1 == width
    requires VisitedAre(visited, claimed)
    requires 0 <= sx < width && 0 <= sy < height
    modifies visited
    ensures 1 <= |line| <= Max(width, height) + 1 && line[0] == (sx, sy)
    ensures GreedyTrace(pixels, claimed, line)
    ensures |line| <= Max(width, height) ==>
      FirstFreeNeighbour(pixels, claimed + Cells(line), line[|line| - 1], 0) == None
    ensures VisitedAre(visited, claimed + Cells(line))
  {
    line := [(sx, sy)];
    MarkClaimed(visited, claimed, sx, sy);
    assert Cells(line) == {(sx, sy)};
    var cx, cy := sx, sy;
    var steps := 0;
    var limit := Max(width, height);
    while steps < limit
      invariant 0 <= steps <= limit
      invariant |line| == steps + 1 && line[0] == (sx, sy) && line[|line| - 1] == (cx, cy)
      invariant VisitedAre(visited, claimed + Cells(line))
      invariant GreedyTrace(pixels, claimed, line)
    {
      var next := NextTracePixel(pixels, visited, claimed + Cells(line), cx, cy);
      if next.None? {
        break;
      }
      var n := next.value;
      GreedyTraceExtends(pixels, claimed, line, n);
      CellsAppend(line, n);
      MarkClaimed(visited, claimed + Cells(line), n.0, n.1);
      line := line + [n];
      cx, cy := n.0, n.1;
      steps := steps + 1;
    }
  }

  function StartCell(c: Checkpoint): Cell { (c.x1, c.y1) }

  function EndCell(c: Checkpoint): Cell { (c.x2, c.y2) }

  /** The extracted checkpoints: dense ids, unpassed, endpoints green grid pixels, each segment
      non-degenerate, and no endpoint shared between two checkpoints. */
  ghost predicate CheckpointsWellFormed(pixels: array2<Pixel>, cps: seq<Checkpoint>)
    reads pixels
  {
    DenseIds(cps) && NonePassed(cps) &&
    (forall i :: 0 <= i < |cps| ==>
       InGrid(pixels, StartCell(cps[i])) && InGrid(pixels, EndCell(cps[i])) &&
       IsGreen(pixels[cps[i].y1, cps[i].x1]) && IsGreen(pixels[cps[i].y2, cps[i].x2]) &&
       StartCell(cps[i]) != EndCell(cps[i])) &&
    (forall i, j :: 0 <= i < j < |cps| ==>
       {StartCell(cps[i]), EndCell(cps[i])} !! {StartCell(cps[j]), EndCell(cps[j])})
  }

  /** Every endpoint of every checkpoint is a claimed cell. */
  ghost predicate EndpointsClaimed(cps: seq<Checkpoint>, claimed: set<Cell>)
  {
    forall i :: 0 <= i < |cps| ==> StartCell(cps[i]) in claimed && EndCell(cps[i]) in claimed
  }

  /** The scan's step at an unvisited green pixel: trace `line` from it, and keep the trace as
      the next checkpoint, from its first to its last pixel, when it is longer than 3 pixels. */
  method ClaimCheckpoint(pixels: array2<Pixel>, visited: array2<bool>, ghost claimed: set<Cell>,
                         cps: seq<Checkpoint>, x: int, y: int)
    returns (cps': seq<Checkpoint>, ghost claimed': set<Cell>, ghost line: seq<Cell>)
    requires visited.Length0 == pixels.Length0 && visited.Length1 == pixels.Length1
    requires 0 <= y < pixels.Length0 && 0 <= x < pixels.Length1
    requires VisitedAre(visited, claimed) && (x, y) !in claimed && IsGreen(pixels[y, x])
    requires CheckpointsWellFormed(pixels, cps) && EndpointsClaimed(cps, claimed)
    modifies visited
    ensures VisitedAre(visited, claimed') && claimed <= claimed'
    ensures CheckpointsWellFormed(pixels, cps') && EndpointsClaimed(cps', claimed')
    ensures 1 <= |line| <= Max(pixels.Length1, pixels.Length0) + 1 && line[0] == (x, y)
    ensures GreedyTrace(pixels, claimed, line)
    ensures |line| <= Max(pixels.Length1, pixels.Length0) ==>
      FirstFreeNeighbour(pixels, claimed + Cells(line), line[|line| - 1], 0) == None
    ensures claimed' == claimed + Cells(line)
    ensures |line| > 3 ==>
      cps' == cps + [Checkpoint(line[0].0, line[0].1, line[|line| - 1].0, line[|line| - 1].1, |cps|, false)]
    ensures |line| <= 3 ==> cps' == cps
  {
    var traced := TraceCheckpointLine(pixels, visited, claimed, x, y, pixels.Length1, pixels.Length0);
    line := traced;
    GreedyTraceIsSimplePath(pixels, claimed, line);
    claimed' := claimed + Cells(line);
    cps' := cps;
    if |traced| > 3 {
      var first, last := traced[0], traced[|traced| - 1];
      assert first in line && last in line;
      var cp := Checkpoint(first.0, first.1, last.0, last.1, |cps|, false);
      cps' := cps + [cp];
    }
  }

  /** The cells claimed by a sequence of traces. */
  ghost function Claimed(traces: seq<seq<Cell>>): set<Cell>
  {
    if traces == [] then {} else Claimed(traces[..|traces| - 1]) + Cells(traces[|traces| - 1])
  }

  /** The checkpoint a trace longer than 3 pixels becomes, with id `id`. */
  function TraceCheckpoint(t: seq<Cell>, id: int): Checkpoint
    requires t != []
  {
    Checkpoint(t[0].0, t[0].1, t[|t| - 1].0, t[|t| - 1].1, id, false)
  }

  /** How many of the traces are longer than 3 pixels. */
  function LongTraces(traces: seq<seq<Cell>>): nat
  {
    if traces == [] then 0
    else LongTraces(traces[..|traces| - 1]) + (if |traces[|traces| - 1]| > 3 then 1 else 0)
  }

  /** The checkpoints made from the traces: one per trace longer than 3 pixels, in order, with
      ids counting from 0. */
  function CheckpointsOf(traces: seq<seq<Cell>>): (r: seq<Checkpoint>)
    ensures |r| == LongTraces(traces) <= |traces|
    ensures DenseIds(r) && NonePassed(r)
  {
    if traces == [] then []
    else
      var cps := CheckpointsOf(traces[..|traces| - 1]);
      var t := traces[|traces| - 1];
      if |t| > 3 then cps + [TraceCheckpoint(t, |cps|)] else cps
  }

  /** `s` is the row-major first green pixel not in `before`. */
  ghost predicate FirstUnclaimed(pixels: array2<Pixel>, before: set<Cell>, s: Cell)
    reads pixels
  {
    Unclaimed(pixels, before, s) &&
    forall c {:trigger RowMajorBefore(c, s)} :: IsGreenAt(pixels, c) && RowMajorBefore(c, s) ==> c in before
  }

  /** `t` is the trace the scan takes once the cells of `before` are claimed: it starts at the
      row-major first unclaimed green pixel, takes the first free neighbour at every step, and
      stops at the step limit or where no free neighbour is left. */
  ghost predicate ScanTrace(pixels: array2<Pixel>, before: set<Cell>, t: seq<Cell>)
    reads pixels
  {
    t != [] && FirstUnclaimed(pixels, before, t[0]) &&
    |t| <= Max(pixels.Length1, pixels.Length0) + 1 && GreedyTrace(pixels, before, t) &&
    (|t| <= Max(pixels.Length1, pixels.Length0) ==>
       FirstFreeNeighbour(pixels, before + Cells(t), t[|t| - 1], 0) == None)
  }

  /** `traces` are the scan's traces in the order taken, each from the cells the earlier ones
      claimed, and together they claim every green pixel. */
  ghost predicate CheckpointScan(pixels: array2<Pixel>, traces: seq<seq<Cell>>)
    reads pixels
  {
    (forall k :: 0 <= k < |traces| ==> ScanTrace(pixels, Claimed(traces[..k]), traces[k])) &&
    (forall c {:trigger IsGreenAt(pixels, c)} :: IsGreenAt(pixels, c) ==> c in Claimed(traces))
  }

  lemma {:induction false} GreedyTracesAgree(pixels: array2<Pixel>, before: set<Cell>, t1: seq<Cell>,
                                             t2: seq<Cell>, n: nat)
    requires t1 != [] && t2 != [] && t1[0] == t2[0]
    requires GreedyTrace(pixels, before, t1) && GreedyTrace(pixels, before, t2)
    requires n <= |t1| && n <= |t2|
    ensures t1[..n] == t2[..n]
  {
    if n > 1 {
      GreedyTracesAgree(pixels, before, t1, t2, n - 1);
      assert t1[..n - 1] == t2[..n - 1] && t1[n - 2] == t2[n - 2];
      assert GreedyStep(pixels, before, t1, n - 2) && GreedyStep(pixels, before, t2, n - 2);
      assert t1[..n] == t1[..n - 1] + [t1[n - 1]] && t2[..n] == t2[..n - 1] + [t2[n - 1]];
    } else if n == 1 {
      assert t1[..n] == [t1[0]] && t2[..n] == [t2[0]];
    }
  }

  /** A greedy trace that extends a shorter one with the same start continues from the shorter
      one's last pixel to a free neighbour. */
  lemma LongerTraceContinues(pixels: array2<Pixel>, before: set<Cell>, t1: seq<Cell>, t2: seq<Cell>)
    requires t1 != [] && |t1| < |t2| && t1[0] == t2[0]
    requires GreedyTrace(pixels, before, t1) && GreedyTrace(pixels, before, t2)
    ensures FirstFreeNeighbour(pixels, before + Cells(t1), t1[|t1| - 1], 0) == Some(t2[|t1|])
  {
    GreedyTracesAgree(pixels, before, t1, t2, |t1|);
    assert t2[..|t1|] == t1;
    assert GreedyStep(pixels, before, t2, |t1| - 1);
  }

  /** The trace the scan takes is determined by the pixels and the cells already claimed. */
  lemma ScanTraceUnique(pixels: array2<Pixel>, before: set<Cell>, t1: seq<Cell>, t2: seq<Cell>)
    requires ScanTrace(pixels, before, t1) && ScanTrace(pixels, before, t2)
    ensures t1 == t2
  {
    var s1, s2 := t1[0], t2[0];
    assert !RowMajorBefore(s1, s2) && !RowMajorBefore(s2, s1);
    assert s1 == s2;
    var m := if |t1| <= |t2| then |t1| else |t2|;
    GreedyTracesAgree(pixels, before, t1, t2, m);
    if |t1| < |t2| {
      LongerTraceContinues(pixels, before, t1, t2);
      assert false;
    } else if |t2| < |t1| {
      LongerTraceContinues(pixels, before, t2, t1);
      assert false;
    }
    assert t1 == t1[..m] && t2 == t2[..m];
  }

  lemma {:induction false} ScansAgree(pixels: array2<Pixel>, tr1: seq<seq<Cell>>, tr2: seq<seq<Cell>>, n: nat)
    requires CheckpointScan(pixels, tr1) && CheckpointScan(pixels, tr2)
    requires n <= |tr1| && n <= |tr2|
    ensures tr1[..n] == tr2[..n]
  {
    if n > 0 {
      ScansAgree(pixels, tr1, tr2, n - 1);
      var before := Claimed(tr1[..n - 1]);
      assert tr1[..n - 1] == tr2[..n - 1];
      assert ScanTrace(pixels, before, tr1[n - 1]) && ScanTrace(pixels, before, tr2[n - 1]);
      ScanTraceUnique(pixels, before, tr1[n - 1], tr2[n - 1]);
      assert tr1[..n] == tr1[..n - 1] + [tr1[n - 1]] && tr2[..n] == tr2[..n - 1] + [tr2[n - 1]];
    }
  }

  /** A scan that extends a shorter one takes its next trace from a green pixel the shorter one
      left unclaimed. */
  lemma LongerScanStartsUnclaimed(pixels: array2<Pixel>, tr1: seq<seq<Cell>>, tr2: seq<seq<Cell>>)
    requires |tr1| < |tr2| && tr1 == tr2[..|tr1|]
    requires CheckpointScan(pixels, tr2)
    ensures tr2[|tr1|] != [] && Unclaimed(pixels, Claimed(tr1), tr2[|tr1|][0])
  {
    assert ScanTrace(pixels, Claimed(tr2[..|tr1|]), tr2[|tr1|]);
  }

  /** The checkpoint scan is determined by the pixels: two scans of the same grid take the same
      traces, hence make the same checkpoints. */
  lemma CheckpointScanUnique(pixels: array2<Pixel>, tr1: seq<seq<Cell>>, tr2: seq<seq<Cell>>)
    requires CheckpointScan(pixels, tr1) && CheckpointScan(pixels, tr2)
    ensures tr1 == tr2 && CheckpointsOf(tr1) == CheckpointsOf(tr2)
  {
    if |tr1| < |tr2| {
      ScansAgree(pixels, tr1, tr2, |tr1|);
      LongerScanStartsUnclaimed(pixels, tr1, tr2);
      assert false;
    } else if |tr2| < |tr1| {
      ScansAgree(pixels, tr1, tr2, |tr2|);
      LongerScanStartsUnclaimed(pixels, tr2, tr1);
      assert false;
    }
    ScansAgree(pixels, tr1, tr2, |tr1|);
    assert tr1 == tr1[..|tr1|] && tr2 == tr2[..|tr1|];
  }

  lemma TracesAppend(traces: seq<seq<Cell>>, t: seq<Cell>)
    ensures Claimed(traces + [t]) == Claimed(traces) + Cells(t)
    ensures t != [] ==>
      (CheckpointsOf(traces + [t]) ==
         if |t| > 3 then CheckpointsOf(traces) + [TraceCheckpoint(t, |CheckpointsOf(traces)|)]
         else CheckpointsOf(traces))
    ensures forall k :: 0 <= k <= |traces| ==> (traces + [t])[..k] == traces[..k]
  {
    assert (traces + [t])[..|traces|] == traces;
  }

  /** The state of the checkpoint scan before pixel `c`: the traces so far are the scan's
      traces, `visited` marks exactly their cells, `cps` are their checkpoints, and every green
      pixel before `c` in row-major order is claimed. */
  ghost predicate ScanSoFar(pixels: array2<Pixel>, visited: array2<bool>, cps: seq<Checkpoint>,
                            traces: seq<seq<Cell>>, c: Cell)
    reads pixels, visited
  {
    visited.Length0 == pixels.Length0 && visited.Length1 == pixels.Length1 &&
    CheckpointsWellFormed(pixels, cps) && EndpointsClaimed(cps, Claimed(traces)) &&
    VisitedAre(visited, Claimed(traces)) && cps == CheckpointsOf(traces) &&
    (forall k :: 0 <= k < |traces| ==> ScanTrace(pixels, Claimed(traces[..k]), traces[k])) &&
    (forall g {:trigger RowMajorBefore(g, c)} :: IsGreenAt(pixels, g) && RowMajorBefore(g, c) ==> g in Claimed(traces))
  }

  /** The scan's step at pixel (x, y): an unvisited green pixel starts a trace. */
  method ScanCheckpointPixel(pixels: array2<Pixel>, visited: array2<bool>, cps: seq<Checkpoint>,
                             ghost traces: seq<seq<Cell>>, x: int, y: int)
    returns (cps': seq<Checkpoint>, ghost traces': seq<seq<Cell>>)
    requires 0 <= y < pixels.Length0 && 0 <= x < pixels.Length1
    requires ScanSoFar(pixels, visited, cps, traces, (x, y))
    modifies visited
    ensures ScanSoFar(pixels, visited, cps', traces', (x + 1, y))
  {
    cps', traces' := cps, traces;
    if !visited[y, x] && IsGreen(pixels[y, x]) {
      ghost var claimed, line;
      cps', claimed, line := ClaimCheckpoint(pixels, visited, Claimed(traces), cps, x, y);
      assert ScanTrace(pixels, Claimed(traces), line);
      TracesAppend(traces, line);
      traces' := traces + [line];
    }
    forall g | IsGreenAt(pixels, g) && RowMajorBefore(g, (x + 1, y)) ensures g in Claimed(traces') {
      if g != (x, y) {
        assert RowMajorBefore(g, (x, y));
      }
    }
  }

  /** The scan of row y, left to right. */
  method ScanCheckpointRow(pixels: array2<Pixel>, visited: array2<bool>, cps: seq<Checkpoint>,
                           ghost traces: seq<seq<Cell>>, y: int)
    returns (cps': seq<Checkpoint>, ghost traces': seq<seq<Cell>>)
    requires 0 <= y < pixels.Length0
    requires ScanSoFar(pixels, visited, cps, traces, (0, y))
    modifies visited
    ensures ScanSoFar(pixels, visited, cps', traces', (0, y + 1))
  {
    cps', traces' := cps, traces;
    var x := 0;
    while x < pixels.Length1
      invariant 0 <= x <= pixels.Length1
      invariant ScanSoFar(pixels, visited, cps', traces', (x, y))
    {
      cps', traces' := ScanCheckpointPixel(pixels, visited, cps', traces', x, y);
      x := x + 1;
    }
    forall g | IsGreenAt(pixels, g) && RowMajorBefore(g, (0, y + 1)) ensures g in Claimed(traces') {
      assert RowMajorBefore(g, (pixels.Length1, y));
    }
  }

  /** Scans the grid row by row and traces every unvisited green pixel; the ghost `traces` are
      the traces taken, and those longer than 3 pixels become the checkpoints. */
  method ExtractCheckpoints(pixels: array2<Pixel>) returns (cps: seq<Checkpoint>, ghost traces: seq<seq<Cell>>)
    ensures CheckpointScan(pixels, traces) && cps == CheckpointsOf(traces)
    ensures CheckpointsWellFormed(pixels, cps)
  {
    var height, width := pixels.Length0, pixels.Length1;
    var visited := new bool[height, width]((_, _) => false);
    traces := [];
    cps := [];
    ScanBegins(pixels, visited);
    var y := 0;
    while y < height
      invariant 0 <= y <= height
      invariant ScanSoFar(pixels, visited, cps, traces, (0, y))
    {
      cps, traces := ScanCheckpointRow(pixels, visited, cps, traces, y);
      y := y + 1;
    }
    ScanEnds(pixels, visited, cps, traces);
  }

  /** Before the first pixel nothing is claimed and no pixel is visited. */
  lemma ScanBegins(pixels: array2<Pixel>, visited: array2<bool>)
    requires visited.Length0 == pixels.Length0 && visited.Length1 == pixels.Length1
    requires forall y, x :: 0 <= y < visited.Length0 && 0 <= x < visited.Length1 ==> !visited[y, x]
    ensures ScanSoFar(pixels, visited, [], [], (0, 0))
  {
    forall g | IsGreenAt(pixels, g) ensures !RowMajorBefore(g, (0, 0)) {
    }
  }

  /** After the last row every green pixel is claimed: the traces are the whole scan. */
  lemma ScanEnds(pixels: array2<Pixel>, visited: array2<bool>, cps: seq<Checkpoint>,
                 traces: seq<seq<Cell>>)
    requires ScanSoFar(pixels, visited, cps, traces, (0, pixels.Length0))
    ensures CheckpointScan(pixels, traces) && cps == CheckpointsOf(traces)
    ensures CheckpointsWellFormed(pixels, cps)
  {
    forall g | IsGreenAt(pixels, g) ensures g in Claimed(traces) {
      assert RowMajorBefore(g, (0, pixels.Length0));
    }
  }

  /** The whole extraction; the ghost `yellow` is the row-major list of yellow pixels and the
      ghost `traces` are the checkpoint scan's traces. */
  method ProcessPixels(pixels: array2<Pixel>) returns (data: TrackData, ghost yellow: seq<Cell>,
                                                       ghost traces: seq<seq<Cell>>)
    ensures data.width == pixels.Length1 && data.height == pixels.Length0
    ensures YellowScan(pixels, yellow)
    ensures data.startPosition == StartPosition(yellow, pixels.Length0)
    ensures data.finishLine == FinishLine(yellow)
    ensures WallCover(pixels, data.walls)
    ensures CheckpointScan(pixels, traces) && data.checkpoints == CheckpointsOf(traces)
    ensures CheckpointsWellFormed(pixels, data.checkpoints)
  {
    var height, width := pixels.Length0, pixels.Length1;
    var startPosition := (100, height / 2);
    var finishLine: Option<Segment> := None;
    var yellowPixels := FindYellowPixels(pixels);
    yellow := yellowPixels;
    if yellowPixels != [] {
      var n := |yellowPixels|;
      startPosition := (SumX(yellowPixels) / n, SumY(yellowPixels) / n);
      finishLine := Some(Segment(yellowPixels[0].0, yellowPixels[0].1, yellowPixels[n - 1].0, yellowPixels[n - 1].1));
    }
    var walls := ExtractWalls(pixels);
    var checkpoints;
    checkpoints, traces := ExtractCheckpoints(pixels);
    data := TrackData(walls, checkpoints, startPosition, finishLine, width, height);
  }
}
