/** The rules of the simulation driver that do not depend on its object
    state: the display-range estimator, the convergence comparison, the
    terrain census, the fallback maze, the goal search of `loadMaze`, the
    pacing clamp, and the propagation and gradient passes as per-cell rules. */
module SimulationRules {
  import opened Terrain
  import ObstacleGrid

  /** Step cap of one run. */
  const MAX_ITERATIONS: nat := 512
  /** Largest per-cell difference still counted as "no change". */
  const TOLERANCE: real := 0.000001
  const MIN_SPEED: int := 10
  const MAX_SPEED: int := 1000
  /** Milliseconds between steps when the simulation is created. */
  const INITIAL_SPEED: int := 100
  /** Display range when the simulation is created. */
  const INITIAL_MAX_DISTANCE: real := 50.0

  function Max(a: real, b: real): real
  {
    if a >= b then a else b
  }

  function Abs(v: real): real
  {
    if v < 0.0 then -v else v
  }

  // ---------------------------------------------------------------------
  // Compute passes

  /** The compute kernels, as per-cell rules. `relaxed` and `plain` give the
      value the propagation pass writes at cell `i` of its output buffer from
      the grid, its input buffer and the output buffer's previous contents;
      `gradient` gives element `j` of the flowfield from the grid, the
      distance buffer it reads and the previous flowfield. */
  datatype Kernels = Kernels(
    relaxed: (seq<real>, seq<real>, seq<real>, nat) -> real,
    plain: (seq<real>, seq<real>, seq<real>, nat) -> real,
    gradient: (seq<real>, seq<real>, seq<real>, nat) -> real)

  /** One propagation dispatch: every cell of the output buffer is rewritten
      by the pipeline the relaxation switch selects. */
  function Propagate(k: Kernels, relaxation: bool, grid: seq<real>, input: seq<real>, output: seq<real>): (r: seq<real>)
    ensures |r| == |output|
  {
    var rule := if relaxation then k.relaxed else k.plain;
    seq(|output|, i requires 0 <= i < |output| => rule(grid, input, output, i))
  }

  /** One gradient dispatch over a flowfield of two values per cell. */
  function Gradient(k: Kernels, grid: seq<real>, distance: seq<real>, flowfield: seq<real>): (r: seq<real>)
    ensures |r| == |flowfield|
  {
    seq(|flowfield|, j requires 0 <= j < |flowfield| => k.gradient(grid, distance, flowfield, j))
  }

  /** The two distance buffers by role: `latest` was written last, `older`
      is the one the next dispatch overwrites. */
  datatype Field = Field(latest: seq<real>, older: seq<real>)

  /** The buffers after `steps` dispatches from `start` on a fixed grid and
      a fixed pipeline: each dispatch reads `latest` and overwrites `older`,
      and the two swap roles. */
  function Iterate(k: Kernels, relaxation: bool, grid: seq<real>, start: Field, steps: nat): (f: Field)
    requires |start.latest| == |start.older|
    ensures |f.latest| == |f.older| == |start.latest|
  {
    if steps == 0 then start
    else
      var prev := Iterate(k, relaxation, grid, start, steps - 1);
      Field(Propagate(k, relaxation, grid, prev.latest, prev.older), prev.latest)
  }

  // ---------------------------------------------------------------------
  // Seeding and estimates

  /** The distance buffer written by a goal placement: 1.0 at `index`, 0.0
      elsewhere; an index outside the buffer writes nothing. */
  function Seeded(n: nat, index: int): (s: seq<real>)
    ensures |s| == n
    ensures forall i :: 0 <= i < n ==> (s[i] == 1.0 <==> i == index)
    ensures forall i :: 0 <= i < n ==> (s[i] == 0.0 <==> i != index)
  {
    seq(n, i requires 0 <= i < n => if i == index then 1.0 else 0.0)
  }

  /** Display range chosen when the relaxation mode is switched, and the
      base of the start-of-run estimate. */
  function BaseMax(gridSize: nat): (r: real)
    ensures r >= 10.0 && r >= gridSize as real * 0.5
    ensures r == 10.0 || r == gridSize as real * 0.5
  {
    Max(gridSize as real * 0.5, 10.0)
  }

  /** Display range chosen when the terrain is edited. */
  function TerrainEditMax(gridSize: nat): (r: real)
    ensures r >= 12.0 && r >= gridSize as real * 0.6
    ensures r == 12.0 || r == gridSize as real * 0.6
  {
    Max(gridSize as real * 0.6, 12.0)
  }

  /** Start-of-run estimate from the terrain census: the base range scaled
      by one plus twice the share of blocked cells, a difficult cell
      weighing half an obstacle. */
  function InitialEstimate(gridSize: nat, obstacles: nat, difficult: nat): real
    requires gridSize >= 1
  {
    var complexity := (obstacles as real + difficult as real * 0.5) / (gridSize * gridSize) as real;
    BaseMax(gridSize) * (1.0 + complexity * 2.0)
  }

  /** The start-of-run estimate is at least the base range, and at most
      three times it when the census counts no more cells than the grid has. */
  lemma InitialEstimateBounds(gridSize: nat, obstacles: nat, difficult: nat)
    requires gridSize >= 1
    ensures InitialEstimate(gridSize, obstacles, difficult) >= BaseMax(gridSize) >= 10.0
    ensures obstacles + difficult <= gridSize * gridSize ==>
      InitialEstimate(gridSize, obstacles, difficult) <= 3.0 * BaseMax(gridSize)
  {
    ObstacleGrid.MulAtLeast(gridSize, gridSize);
    var cells := (gridSize * gridSize) as real;
    var weight := obstacles as real + difficult as real * 0.5;
    var complexity := weight / cells;
    QuotientBounds(weight, cells);
    ScaleBounds(BaseMax(gridSize), complexity);
  }

  /** A non-negative quotient by a positive divisor, at most 1 when the
      dividend does not exceed the divisor. */
  lemma QuotientBounds(w: real, c: real)
    requires w >= 0.0 && c >= 1.0
    ensures w / c >= 0.0
    ensures w <= c ==> w / c <= 1.0
  {
    var q := w / c;
    assert q * c == w;
  }

  /** Scaling a positive base by 1 + 2c with 0 <= c <= 1 stays in [b, 3b]. */
  lemma ScaleBounds(b: real, c: real)
    requires b > 0.0 && c >= 0.0
    ensures b * (1.0 + c * 2.0) >= b
    ensures c <= 1.0 ==> b * (1.0 + c * 2.0) <= 3.0 * b
  {
    assert b * (1.0 + c * 2.0) == b + 2.0 * (b * c);
    assert b * c >= 0.0;
    if c <= 1.0 {
      assert b * c <= b * 1.0;
    }
  }

  /** The tier rule of the range estimator, before the mean clamp. */
  function TierEstimate(maxDist: real, est: real): real
  {
    if maxDist < est * 0.4 then Max(maxDist * 1.4, 5.0)
    else if maxDist < est * 0.7 then Max(maxDist * 1.2, 8.0)
    else if maxDist > est * 0.9 then maxDist * 1.15
    else est
  }

  /** The mean clamp fires: the maximum is more than ten times the mean and
      three times the mean is below 80% of the tiered range. */
  predicate MeanClampFires(count: nat, sum: real, maxDist: real, tiered: real)
    requires count > 0
  {
    var avg := sum / count as real;
    avg > 0.0 && maxDist / avg > 10.0 && avg * 3.0 < tiered * 0.8
  }

  /** The range estimate after a readback with `count` positive cells of
      total `sum` and maximum `maxDist`. */
  function NextEstimate(count: nat, sum: real, maxDist: real, est: real): (r: real)
    ensures count <= 10 ==> r == est
    ensures est >= 5.0 && maxDist >= 0.0 ==> r >= 5.0
  {
    if count <= 10 then est
    else
      var tiered := TierEstimate(maxDist, est);
      if MeanClampFires(count, sum, maxDist, tiered) then Max(sum / count as real * 3.0, 10.0) else tiered
  }

  /** Unless the mean clamp fires, the new range covers the observed
      maximum; when it fires, the range is three times the mean, or 10. */
  lemma EstimateCoversMaximum(count: nat, sum: real, maxDist: real, est: real)
    requires count > 10 && maxDist >= 0.0 && est > 0.0
    ensures !MeanClampFires(count, sum, maxDist, TierEstimate(maxDist, est)) ==>
      NextEstimate(count, sum, maxDist, est) >= maxDist
    ensures MeanClampFires(count, sum, maxDist, TierEstimate(maxDist, est)) ==>
      NextEstimate(count, sum, maxDist, est) == Max(sum / count as real * 3.0, 10.0)
  {
    var t := TierEstimate(maxDist, est);
    if maxDist < est * 0.4 {
    } else if maxDist < est * 0.7 {
    } else if maxDist > est * 0.9 {
    } else {
      assert est * 0.9 >= maxDist;
      assert t == est >= maxDist;
    }
  }

  // ---------------------------------------------------------------------
  // Statistics of a distance readback

  /** Number of positive values among `s[..n]`. */
  function CountPositive(s: seq<real>, n: nat): nat
    requires n <= |s|
  {
    if n == 0 then 0 else CountPositive(s, n - 1) + (if s[n - 1] > 0.0 then 1 else 0)
  }

  /** Sum of the positive values among `s[..n]`. */
  function SumPositive(s: seq<real>, n: nat): real
    requires n <= |s|
  {
    if n == 0 then 0.0 else SumPositive(s, n - 1) + (if s[n - 1] > 0.0 then s[n - 1] else 0.0)
  }

  /** Largest positive value among `s[..n]`, or 0 when there is none. */
  function MaxPositive(s: seq<real>, n: nat): real
    requires n <= |s|
  {
    if n == 0 then 0.0
    else if s[n - 1] > 0.0 && s[n - 1] > MaxPositive(s, n - 1) then s[n - 1]
    else MaxPositive(s, n - 1)
  }

  /** What the three statistics mean: the maximum bounds every positive
      value and is one of them (or 0 when none is positive), and the sum is
      positive exactly when some value is. */
  lemma {:induction false} PositiveStatsMeaning(s: seq<real>, n: nat)
    requires n <= |s|
    ensures CountPositive(s, n) <= n
    ensures forall i :: 0 <= i < n && s[i] > 0.0 ==> s[i] <= MaxPositive(s, n)
    ensures MaxPositive(s, n) == 0.0 || exists i :: 0 <= i < n && s[i] > 0.0 && s[i] == MaxPositive(s, n)
    ensures MaxPositive(s, n) >= 0.0 && SumPositive(s, n) >= 0.0
    ensures CountPositive(s, n) > 0 <==> SumPositive(s, n) > 0.0
    ensures CountPositive(s, n) > 0 <==> MaxPositive(s, n) > 0.0
  {
    if n > 0 {
      PositiveStatsMeaning(s, n - 1);
    }
  }

  /** The readback loop of the range estimator. */
  method PositiveStats(distanceData: seq<real>) returns (nonZeroCount: nat, total: real, maxDist: real)
    ensures nonZeroCount == CountPositive(distanceData, |distanceData|)
    ensures total == SumPositive(distanceData, |distanceData|)
    ensures maxDist == MaxPositive(distanceData, |distanceData|)
  {
    nonZeroCount, total, maxDist := 0, 0.0, 0.0;
    for i := 0 to |distanceData|
      invariant nonZeroCount == CountPositive(distanceData, i)
      invariant total == SumPositive(distanceData, i)
      invariant maxDist == MaxPositive(distanceData, i)
    {
      if distanceData[i] > 0.0 {
        nonZeroCount := nonZeroCount + 1;
        total := total + distanceData[i];
        if distanceData[i] > maxDist {
          maxDist := distanceData[i];
        }
      }
    }
  }

  // ---------------------------------------------------------------------
  // Convergence

  /** Two readings of a cell differ by more than the tolerance. */
  predicate Differs(a: real, b: real)
  {
    Abs(a - b) > TOLERANCE
  }

  /** The comparison loop of the convergence check: is some cell among the
      first `n` more than the tolerance away from the retained snapshot? */
  method HasChanged(current: seq<real>, last: seq<real>, n: nat) returns (changed: bool)
    requires n <= |current| && n <= |last|
    ensures changed <==> exists i :: 0 <= i < n && Differs(current[i], last[i])
  {
    changed := false;
    var i := 0;
    while i < n
      invariant i <= n
      invariant !changed
      invariant forall j :: 0 <= j < i ==> !Differs(current[j], last[j])
    {
      if Abs(current[i] - last[i]) > TOLERANCE {
        changed := true;
        break;
      }
      i := i + 1;
    }
  }

  /** Every cell of `current` lies within the tolerance of `last`. */
  predicate Settled(current: seq<real>, last: seq<real>)
    requires |current| == |last|
  {
    forall i :: 0 <= i < |current| ==> !Differs(current[i], last[i])
  }

  /** Settling is symmetric: the check does not depend on which reading is
      the retained one. */
  lemma SettledSymmetric(a: seq<real>, b: seq<real>)
    requires |a| == |b|
    ensures Settled(a, b) <==> Settled(b, a)
  {
    forall i | 0 <= i < |a|
      ensures Differs(a[i], b[i]) == Differs(b[i], a[i])
    {
    }
  }

  // ---------------------------------------------------------------------
  // Terrain census

  /** Number of cells among `s[..n]` equal to `v`. */
  function CountOf(s: seq<real>, n: nat, v: real): nat
    requires n <= |s|
  {
    if n == 0 then 0 else CountOf(s, n - 1, v) + (if s[n - 1] == v then 1 else 0)
  }

  /** The census loop at the start of a run: obstacles, and cells equal to
      `difficultValue`. As written the loop compares with the double 0.3. */
  method CountTerrain(gridData: array<real>, difficultValue: real) returns (obstacleCount: nat, difficultCount: nat)
    requires difficultValue != OBSTACLE
    ensures obstacleCount == CountOf(gridData[..], gridData.Length, OBSTACLE)
    ensures difficultCount == CountOf(gridData[..], gridData.Length, difficultValue)
  {
    obstacleCount, difficultCount := 0, 0;
    for i := 0 to gridData.Length
      invariant obstacleCount == CountOf(gridData[..], i, OBSTACLE)
      invariant difficultCount == CountOf(gridData[..], i, difficultValue)
    {
      if gridData[i] == OBSTACLE {
        obstacleCount := obstacleCount + 1;
      } else if gridData[i] == difficultValue {
        difficultCount := difficultCount + 1;
      }
    }
  }

  /** As written: on a grid of stored cell codes the census never counts a
      difficult cell, because a stored 0.3 reads back as the float32 value. */
  lemma {:induction false} DifficultNeverCounted(s: seq<real>, n: nat)
    requires n <= |s|
    requires forall i :: 0 <= i < |s| ==> IsStoredCode(s[i])
    ensures CountOf(s, n, DIFFICULT) == 0
  {
    if n > 0 {
      DifficultNeverCounted(s, n - 1);
      assert IsStoredCode(s[n - 1]);
    }
  }

  /** Corrected census: counting the stored value, painting one more cell
      difficult raises the count by exactly one. */
  lemma {:induction false} DifficultEditCounted(s: seq<real>, n: nat, i: nat)
    requires i < n <= |s| && s[i] != F32_DIFFICULT
    ensures CountOf(s[i := StoredFloat32(DIFFICULT)], n, F32_DIFFICULT) == CountOf(s, n, F32_DIFFICULT) + 1
  {
    var t := s[i := StoredFloat32(DIFFICULT)];
    if n - 1 == i {
      CountUnchanged(s, t, n - 1, F32_DIFFICULT);
    } else {
      DifficultEditCounted(s, n - 1, i);
    }
  }

  /** Two sequences that agree on `[0, n)` have the same counts there. */
  lemma {:induction false} CountUnchanged(s: seq<real>, t: seq<real>, n: nat, v: real)
    requires n <= |s| && n <= |t|
    requires forall j :: 0 <= j < n ==> s[j] == t[j]
    ensures CountOf(s, n, v) == CountOf(t, n, v)
  {
    if n > 0 {
      CountUnchanged(s, t, n - 1, v);
    }
  }

  // ---------------------------------------------------------------------
  // Fallback maze

  /** Cell (x, y) of the fallback maze before the centre is opened: a
      closed border ring, a lattice of walls on even rows and columns, and
      difficult cells on every seventh anti-diagonal. */
  function FallbackCell(gridSize: nat, x: nat, y: nat): (v: real)
    ensures IsStoredCode(v)
  {
    if x == 0 || x == gridSize - 1 || y == 0 || y == gridSize - 1 then OBSTACLE
    else if (x % 4 == 0 && y % 2 == 0) || (y % 4 == 0 && x % 2 == 0) then OBSTACLE
    else if (x + y) % 7 == 0 then StoredFloat32(DIFFICULT)
    else TRAVERSABLE
  }

  /** Cell (x, y) of the fallback maze: the centre is opened afterwards. */
  function MazeCell(gridSize: nat, x: nat, y: nat): (v: real)
    ensures IsStoredCode(v)
  {
    if x == gridSize / 2 && y == gridSize / 2 then TRAVERSABLE else FallbackCell(gridSize, x, y)
  }

  /** Row `y` of the fallback maze before the centre is opened. */
  function FallbackRow(gridSize: nat, y: nat): (r: seq<real>)
    ensures |r| == gridSize
  {
    seq(gridSize, x requires 0 <= x < gridSize => FallbackCell(gridSize, x, y))
  }

  /** The first `rows` rows of the fallback maze before the centre is
      opened, row-major. */
  function FallbackRows(gridSize: nat, rows: nat): (r: seq<real>)
    ensures |r| == ObstacleGrid.RowStart(rows, gridSize)
    ensures forall i :: 0 <= i < |r| ==> IsStoredCode(r[i])
  {
    if rows == 0 then [] else FallbackRows(gridSize, rows - 1) + FallbackRow(gridSize, rows - 1)
  }

  /** The whole fallback grid, row-major, with its centre opened. */
  function FallbackMaze(gridSize: nat): (g: seq<real>)
    ensures |g| == gridSize * gridSize
    ensures forall i :: 0 <= i < |g| ==> IsStoredCode(g[i])
  {
    ObstacleGrid.RowStartIsProduct(gridSize, gridSize);
    var cells := FallbackRows(gridSize, gridSize);
    if gridSize == 0 then cells
    else
      CellIndex(gridSize, gridSize / 2, gridSize / 2);
      cells[(gridSize / 2) * gridSize + gridSize / 2 := TRAVERSABLE]
  }

  lemma CellIndex(gridSize: nat, x: nat, y: nat)
    requires x < gridSize && y < gridSize
    ensures y * gridSize + x < gridSize * gridSize
    ensures (y * gridSize + x) % gridSize == x && (y * gridSize + x) / gridSize == y
  {
    ObstacleGrid.CellIndexBound(gridSize, x, y);
    ObstacleGrid.DivModUnique(y * gridSize + x, gridSize, y, x);
  }

  /** Cell (x, y) of the first `rows` rows sits at the start of row y plus x. */
  lemma {:induction false} FallbackRowsAt(gridSize: nat, rows: nat, x: nat, y: nat)
    requires x < gridSize && y < rows
    ensures ObstacleGrid.RowStart(y, gridSize) + x < |FallbackRows(gridSize, rows)|
    ensures FallbackRows(gridSize, rows)[ObstacleGrid.RowStart(y, gridSize) + x] == FallbackCell(gridSize, x, y)
  {
    if y < rows - 1 {
      FallbackRowsAt(gridSize, rows - 1, x, y);
      ObstacleGrid.RowStartGrows(y, rows - 1, gridSize);
    }
  }

  /** Row-major placement: cell (x, y) of the fallback maze sits at index
      y·N + x, and the centre cell is open. */
  lemma FallbackMazeAt(gridSize: nat, x: nat, y: nat)
    requires x < gridSize && y < gridSize
    ensures y * gridSize + x < |FallbackMaze(gridSize)|
    ensures FallbackMaze(gridSize)[y * gridSize + x] == MazeCell(gridSize, x, y)
    ensures x == gridSize / 2 && y == gridSize / 2 ==> FallbackMaze(gridSize)[y * gridSize + x] == TRAVERSABLE
  {
    var c := gridSize / 2;
    CellIndex(gridSize, x, y);
    CellIndex(gridSize, c, c);
    FallbackRowsAt(gridSize, gridSize, x, y);
    ObstacleGrid.RowStartIsProduct(y, gridSize);
    if y * gridSize + x == c * gridSize + c {
      assert x == c && y == c;
    }
  }

  /** The fallback maze the application builds (32 × 32) holds difficult
      cells, yet the census as written counts none of them. */
  lemma FallbackDifficultUncounted()
    ensures FallbackMaze(32)[4 * 32 + 3] == F32_DIFFICULT
    ensures CountOf(FallbackMaze(32), 32 * 32, DIFFICULT) == 0
    ensures CountOf(FallbackMaze(32), 32 * 32, F32_DIFFICULT) > 0
  {
    var g := FallbackMaze(32);
    FallbackMazeAt(32, 3, 4);
    DifficultNeverCounted(g, 32 * 32);
    CountAtLeastOne(g, 32 * 32, 4 * 32 + 3, F32_DIFFICULT);
  }

  /** Extending a prefix by one element. */
  lemma PrefixAppended<T>(a: seq<T>, k: nat, prefix: seq<T>)
    requires k < |a| && a[..k] == prefix
    ensures a[..k + 1] == prefix + [a[k]]
  {
  }

  lemma {:induction false} CountAtLeastOne(s: seq<real>, n: nat, i: nat, v: real)
    requires i < n <= |s| && s[i] == v
    ensures CountOf(s, n, v) > 0
  {
    if n - 1 != i {
      CountAtLeastOne(s, n - 1, i, v);
    }
  }

  // ---------------------------------------------------------------------
  // Goal search of the maze loader

  function IntAbs(v: int): nat
  {
    if v < 0 then -v else v
  }

  /** Chebyshev distance of the offset (dx, dy). */
  function Cheb(dx: int, dy: int): nat
  {
    if IntAbs(dx) >= IntAbs(dy) then IntAbs(dx) else IntAbs(dy)
  }

  /** Cell (x, y) is inside the grid and holds exactly 1.0. */
  predicate OpenAt(s: seq<real>, gridSize: nat, x: int, y: int)
  {
    0 <= x < gridSize && 0 <= y < gridSize && y * gridSize + x < |s| && s[y * gridSize + x] == TRAVERSABLE
  }

  /** The offset (dx, dy) from the centre lies on a ring the search visits:
      its radius is below half the grid size. */
  predicate InSearch(gridSize: nat, dx: int, dy: int)
  {
    2 * Cheb(dx, dy) < gridSize
  }

  /** Visiting order of the search: by ring, then by row, then by column. */
  predicate VisitedNoLater(dx: int, dy: int, dx': int, dy': int)
  {
    Cheb(dx, dy) < Cheb(dx', dy') ||
    (Cheb(dx, dy) == Cheb(dx', dy') && (dy < dy' || (dy == dy' && dx <= dx')))
  }

  /** (x, y) is the open cell the search meets first. */
  ghost predicate IsNearestOpen(s: seq<real>, gridSize: nat, x: int, y: int)
  {
    var c := gridSize / 2;
    OpenAt(s, gridSize, x, y) && InSearch(gridSize, x - c, y - c) &&
    forall x', y' :: OpenAt(s, gridSize, x', y') && InSearch(gridSize, x' - c, y' - c) ==>
      VisitedNoLater(x - c, y - c, x' - c, y' - c)
  }

  /** No open cell lies on a searched ring. */
  ghost predicate NoOpenInSearch(s: seq<real>, gridSize: nat)
  {
    var c := gridSize / 2;
    forall x, y :: OpenAt(s, gridSize, x, y) ==> !InSearch(gridSize, x - c, y - c)
  }

  /** The goal search of the maze loader: rings of growing radius around
      the centre, stopping at the first cell that holds 1.0; the centre when
      there is none. */
  method NearestOpenCell(gridData: array<real>, gridSize: nat) returns (found: bool, goalX: int, goalY: int)
    requires gridData.Length == gridSize * gridSize
    ensures found ==> IsNearestOpen(gridData[..], gridSize, goalX, goalY)
    ensures !found ==> goalX == gridSize / 2 && goalY == gridSize / 2 && NoOpenInSearch(gridData[..], gridSize)
  {
    var c := gridSize / 2;
    goalX, goalY := c, c;
    found := false;
    var radius := 0;
    while 2 * radius < gridSize && !found
      invariant radius >= 0
      invariant found ==> IsNearestOpen(gridData[..], gridSize, goalX, goalY)
      invariant !found ==> goalX == c && goalY == c
      invariant !found ==> forall x, y :: OpenAt(gridData[..], gridSize, x, y) ==> Cheb(x - c, y - c) >= radius
      decreases gridSize - 2 * radius
    {
      var ringX, ringY;
      found, ringX, ringY := ScanRing(gridData, gridSize, radius);
      if found {
        goalX, goalY := ringX, ringY;
      }
      radius := radius + 1;
    }
  }

  /** An open cell at offset (qx, qy) does not precede the scan position
      (`radius`, `dy`, `dx`) in visiting order. */
  predicate NotPassed(radius: int, dy: int, dx: int, qx: int, qy: int)
  {
    Cheb(qx, qy) > radius || (Cheb(qx, qy) == radius && (qy > dy || (qy == dy && qx >= dx)))
  }

  /** One ring of the goal search: the square of offsets up to `radius`,
      row by row. */
  method ScanRing(gridData: array<real>, gridSize: nat, radius: int) returns (found: bool, goalX: int, goalY: int)
    requires gridData.Length == gridSize * gridSize
    requires 0 <= radius && 2 * radius < gridSize
    requires forall x, y :: OpenAt(gridData[..], gridSize, x, y) ==> Cheb(x - gridSize / 2, y - gridSize / 2) >= radius
    ensures found ==> IsNearestOpen(gridData[..], gridSize, goalX, goalY)
    ensures !found ==> forall x, y :: OpenAt(gridData[..], gridSize, x, y) ==> Cheb(x - gridSize / 2, y - gridSize / 2) > radius
  {
    var c := gridSize / 2;
    goalX, goalY := c, c;
    found := false;
    var dy := -radius;
    while dy <= radius && !found
      invariant -radius <= dy <= radius + 1
      invariant found ==> IsNearestOpen(gridData[..], gridSize, goalX, goalY)
      invariant !found ==> Unpassed(gridData[..], gridSize, radius, dy, -radius)
    {
      found, goalX, goalY := ScanRow(gridData, gridSize, radius, dy);
      dy := dy + 1;
    }
  }

  /** No open cell precedes the scan position (`radius`, `dy`, `dx`). */
  ghost predicate Unpassed(s: seq<real>, gridSize: nat, radius: int, dy: int, dx: int)
  {
    forall x, y :: OpenAt(s, gridSize, x, y) ==> NotPassed(radius, dy, dx, x - gridSize / 2, y - gridSize / 2)
  }

  /** Whether cell (x, y) is inside the grid and holds exactly 1.0. */
  method Probe(gridData: array<real>, gridSize: nat, x: int, y: int) returns (open: bool)
    requires gridData.Length == gridSize * gridSize
    ensures open == OpenAt(gridData[..], gridSize, x, y)
  {
    open := false;
    if x >= 0 && x < gridSize && y >= 0 && y < gridSize {
      var index := y * gridSize + x;
      CellIndex(gridSize, x, y);
      open := gridData[index] == TRAVERSABLE;
    }
  }

  /** One row of a ring: offsets -radius..radius at row offset `dy`. */
  method ScanRow(gridData: array<real>, gridSize: nat, radius: int, dy: int) returns (found: bool, goalX: int, goalY: int)
    requires gridData.Length == gridSize * gridSize
    requires 0 <= radius && 2 * radius < gridSize && -radius <= dy <= radius
    requires Unpassed(gridData[..], gridSize, radius, dy, -radius)
    ensures found ==> IsNearestOpen(gridData[..], gridSize, goalX, goalY)
    ensures !found ==> Unpassed(gridData[..], gridSize, radius, dy + 1, -radius)
  {
    ghost var s := gridData[..];
    var c := gridSize / 2;
    goalX, goalY := c, c;
    found := false;
    var dx := -radius;
    while dx <= radius && !found
      invariant -radius <= dx <= radius + 1
      invariant found ==> IsNearestOpen(s, gridSize, goalX, goalY)
      invariant !found ==> Unpassed(s, gridSize, radius, dy, dx)
    {
      var open := Probe(gridData, gridSize, c + dx, c + dy);
      if open {
        FirstOpenIsNearest(s, gridSize, radius, c + dx, c + dy);
        goalX, goalY := c + dx, c + dy;
        found := true;
      } else {
        ProbeClosed(s, gridSize, radius, dy, dx);
      }
      dx := dx + 1;
    }
    if !found {
      RowPassed(s, gridSize, radius, dy);
    }
  }

  /** A closed scan position is passed without finding anything. */
  lemma ProbeClosed(s: seq<real>, gridSize: nat, radius: int, dy: int, dx: int)
    requires !OpenAt(s, gridSize, gridSize / 2 + dx, gridSize / 2 + dy)
    requires Unpassed(s, gridSize, radius, dy, dx)
    ensures Unpassed(s, gridSize, radius, dy, dx + 1)
  {
  }

  /** Past the end of a row the scan continues at the start of the next. */
  lemma RowPassed(s: seq<real>, gridSize: nat, radius: int, dy: int)
    requires Unpassed(s, gridSize, radius, dy, radius + 1)
    ensures Unpassed(s, gridSize, radius, dy + 1, -radius)
  {
  }

  /** The open cell at the scan position, when no open cell precedes the
      position, is the nearest in visiting order. */
  lemma FirstOpenIsNearest(s: seq<real>, gridSize: nat, radius: int, x: int, y: int)
    requires 0 <= radius && 2 * radius < gridSize
    requires OpenAt(s, gridSize, x, y)
    requires Cheb(x - gridSize / 2, y - gridSize / 2) <= radius
    requires forall x', y' :: OpenAt(s, gridSize, x', y') ==>
      NotPassed(radius, y - gridSize / 2, x - gridSize / 2, x' - gridSize / 2, y' - gridSize / 2)
    ensures IsNearestOpen(s, gridSize, x, y)
  {
    var c := gridSize / 2;
    assert NotPassed(radius, y - c, x - c, x - c, y - c);
  }

  // ---------------------------------------------------------------------
  // Pacing

  /** `setSimulationSpeed`: the delay between steps, held to [10, 1000] ms. */
  function ClampSpeed(speed: int): (r: int)
    ensures MIN_SPEED <= r <= MAX_SPEED
    ensures MIN_SPEED <= speed <= MAX_SPEED ==> r == speed
    ensures speed < MIN_SPEED ==> r == MIN_SPEED
    ensures speed > MAX_SPEED ==> r == MAX_SPEED
  {
    if speed < MIN_SPEED then MIN_SPEED else if speed > MAX_SPEED then MAX_SPEED else speed
  }

  /** Clamping twice changes nothing more than clamping once. */
  lemma ClampSpeedIdempotent(speed: int)
    ensures ClampSpeed(ClampSpeed(speed)) == ClampSpeed(speed)
  {
  }

  /** The delay the speed slider asks for at slider position `value`. */
  function SliderDelay(value: int): int
  {
    if 510 - value * 10 >= 10 then 510 - value * 10 else 10
  }

  /** Over the slider's range 1..50 the delay falls from 500 to 10 ms in
      steps of 10 and the clamp never alters it; a faster setting always
      gives a shorter delay. */
  lemma SliderDelayUnclamped(value: int, faster: int)
    requires 1 <= value < faster <= 50
    ensures SliderDelay(value) == 510 - 10 * value
    ensures ClampSpeed(SliderDelay(value)) == SliderDelay(value)
    ensures ClampSpeed(SliderDelay(faster)) < ClampSpeed(SliderDelay(value))
  {
  }

  // ---------------------------------------------------------------------
  // A run without interference

  /** A buffer of `n` copies of `v`. */
  function Filled(n: nat, v: real): (s: seq<real>)
    ensures |s| == n && forall i :: 0 <= i < n ==> s[i] == v
  {
    seq(n, _ => v)
  }

  /** The flowfield after `steps` rounds of one propagation dispatch and
      one gradient pass, from `flow0`. As written, the gradient pass after
      dispatch `s` reads `Iterate(s).older`: the buffer that dispatch read,
      not the one it wrote. */
  function FlowAfter(k: Kernels, relaxation: bool, grid: seq<real>, start: Field, flow0: seq<real>, steps: nat): (r: seq<real>)
    requires |start.latest| == |start.older|
    ensures |r| == |flow0|
  {
    if steps == 0 then flow0
    else Gradient(k, grid, Iterate(k, relaxation, grid, start, steps).older,
                  FlowAfter(k, relaxation, grid, start, flow0, steps - 1))
  }

  /** The convergence check runs after steps 1, 4, 7, ...: after step `s`
      it compares the buffer with the reading of three steps earlier. */
  predicate IsCheckPoint(s: nat)
  {
    s % 3 == 1
  }

  /** The check after step `s` finds nothing moved beyond the tolerance.
      As written, each reading is the observed buffer `Iterate(s).older`,
      the input of dispatch `s`. */
  predicate ConvergedAt(k: Kernels, relaxation: bool, grid: seq<real>, start: Field, s: nat)
    requires |start.latest| == |start.older|
  {
    s >= 4 && IsCheckPoint(s) &&
    Settled(Iterate(k, relaxation, grid, start, s).older, Iterate(k, relaxation, grid, start, s - 3).older)
  }

  /** A run with a budget of `budget` steps stops after `steps` steps: no
      earlier check found the buffer settled, and unless the budget ran out
      the check after step `steps` did. */
  predicate StopsAt(k: Kernels, relaxation: bool, grid: seq<real>, start: Field, steps: nat, budget: nat)
    requires |start.latest| == |start.older|
  {
    1 <= steps <= budget &&
    (forall s :: 1 <= s < steps ==> !ConvergedAt(k, relaxation, grid, start, s)) &&
    (steps < budget ==> ConvergedAt(k, relaxation, grid, start, steps))
  }

  /** Corrected check: the readings are the buffers the dispatches wrote. */
  predicate FreshConvergedAt(k: Kernels, relaxation: bool, grid: seq<real>, start: Field, s: nat)
    requires |start.latest| == |start.older|
  {
    s >= 4 && IsCheckPoint(s) &&
    Settled(Iterate(k, relaxation, grid, start, s).latest, Iterate(k, relaxation, grid, start, s - 3).latest)
  }

  /** Corrected flowfield: each gradient pass reads what its dispatch wrote. */
  function FreshFlowAfter(k: Kernels, relaxation: bool, grid: seq<real>, start: Field, flow0: seq<real>, steps: nat): (r: seq<real>)
    requires |start.latest| == |start.older|
    ensures |r| == |flow0|
  {
    if steps == 0 then flow0
    else Gradient(k, grid, Iterate(k, relaxation, grid, start, steps).latest,
                  FreshFlowAfter(k, relaxation, grid, start, flow0, steps - 1))
  }

  /** As written, every observer lags the propagation by one step: after
      step `s` the flowfield is the corrected one of a step earlier pushed
      through one more gradient pass over the same buffer, and the check
      compares the buffers written by dispatches `s - 1` and `s - 4`. */
  lemma {:induction false} ObserversLagOneStep(k: Kernels, relaxation: bool, grid: seq<real>, start: Field,
                                              flow0: seq<real>, s: nat)
    requires |start.latest| == |start.older| && s >= 1
    ensures Iterate(k, relaxation, grid, start, s).older == Iterate(k, relaxation, grid, start, s - 1).latest
    ensures FlowAfter(k, relaxation, grid, start, flow0, s) ==
      Gradient(k, grid, Iterate(k, relaxation, grid, start, s - 1).latest, FlowAfter(k, relaxation, grid, start, flow0, s - 1))
    ensures ConvergedAt(k, relaxation, grid, start, s) <==>
      s >= 4 && IsCheckPoint(s) &&
      Settled(Iterate(k, relaxation, grid, start, s - 1).latest, Iterate(k, relaxation, grid, start, s - 4).latest)
  {
    if s >= 4 {
      assert Iterate(k, relaxation, grid, start, s - 3).older == Iterate(k, relaxation, grid, start, s - 4).latest;
    }
  }

  /** Once the written buffers stay put from step `s - 3` through step
      `s + 2`, the corrected check at check point `s` finds them settled,
      while the check as written may need until step `s + 3`: a run as
      written stops at most three steps after the corrected one would. */
  lemma StopsWithinThreeSteps(k: Kernels, relaxation: bool, grid: seq<real>, start: Field, s: nat, budget: nat, t: nat)
    requires |start.latest| == |start.older|
    requires s >= 4 && IsCheckPoint(s)
    requires forall j :: s - 3 <= j <= s + 2 ==>
      Iterate(k, relaxation, grid, start, j).latest == Iterate(k, relaxation, grid, start, s - 3).latest
    requires StopsAt(k, relaxation, grid, start, t, budget)
    ensures FreshConvergedAt(k, relaxation, grid, start, s)
    ensures ConvergedAt(k, relaxation, grid, start, s + 3)
    ensures t <= s + 3
  {
    var fixed := Iterate(k, relaxation, grid, start, s - 3).latest;
    var now := Iterate(k, relaxation, grid, start, s);
    var later := Iterate(k, relaxation, grid, start, s + 3);
    assert now.latest == fixed;
    assert Iterate(k, relaxation, grid, start, s + 2).latest == fixed;
    assert Iterate(k, relaxation, grid, start, s - 1).latest == fixed;
    OlderIsPrevious(k, relaxation, grid, start, s);
    OlderIsPrevious(k, relaxation, grid, start, s + 3);
    SettledReflexive(fixed);
    assert IsCheckPoint(s + 3);
    assert Settled(later.older, now.older);
    assert !(1 <= s + 3 < t) || !ConvergedAt(k, relaxation, grid, start, s + 3);
  }

  /** After a dispatch the older buffer is the one the previous dispatch wrote. */
  lemma OlderIsPrevious(k: Kernels, relaxation: bool, grid: seq<real>, start: Field, s: nat)
    requires |start.latest| == |start.older| && s >= 1
    ensures Iterate(k, relaxation, grid, start, s).older == Iterate(k, relaxation, grid, start, s - 1).latest
  {
  }

  lemma SettledReflexive(a: seq<real>)
    ensures Settled(a, a)
  {
  }

  /** A one-cell grid whose dispatches always write 2.0, from the seeded
      start [1.0]: the corrected check stops the run after step 4, but the
      check as written compares the seed with a written buffer there, and
      the run goes on to step 7. */
  lemma RunStopsLate()
    ensures var k := Kernels((g, i, o, c) => 2.0, (g, i, o, c) => 2.0, (g, d, f, j) => 0.0);
      var start := Field([1.0], [1.0]);
      FreshConvergedAt(k, true, [1.0], start, 4) &&
      !ConvergedAt(k, true, [1.0], start, 4) &&
      StopsAt(k, true, [1.0], start, 7, MAX_ITERATIONS) && !StopsAt(k, true, [1.0], start, 4, MAX_ITERATIONS)
  {
    var k := Kernels((g, i, o, c) => 2.0, (g, i, o, c) => 2.0, (g, d, f, j) => 0.0);
    var start := Field([1.0], [1.0]);
    assert Propagate(k, true, [1.0], [1.0], [1.0]) == [2.0];
    assert Propagate(k, true, [1.0], [2.0], [1.0]) == [2.0];
    assert Propagate(k, true, [1.0], [2.0], [2.0]) == [2.0];
    assert Iterate(k, true, [1.0], start, 1) == Field([2.0], [1.0]);
    assert Iterate(k, true, [1.0], start, 2) == Field([2.0], [2.0]);
    assert Iterate(k, true, [1.0], start, 3) == Field([2.0], [2.0]);
    assert Iterate(k, true, [1.0], start, 4) == Field([2.0], [2.0]);
    assert Iterate(k, true, [1.0], start, 5) == Field([2.0], [2.0]);
    assert Iterate(k, true, [1.0], start, 6) == Field([2.0], [2.0]);
    assert Iterate(k, true, [1.0], start, 7) == Field([2.0], [2.0]);
    assert Differs([2.0][0], [1.0][0]);
    assert !Settled([2.0], [1.0]);
    assert !ConvergedAt(k, true, [1.0], start, 4);
    forall s | 1 <= s < 7
      ensures !ConvergedAt(k, true, [1.0], start, s)
    {
      if s != 4 {
        assert !(s >= 4 && IsCheckPoint(s));
      }
    }
  }

  /** One more round: the dispatch reads the latest buffer and overwrites
      the older one, and the gradient pass, as written, reads the buffer
      that dispatch read. */
  lemma RoundStep(k: Kernels, relaxation: bool, grid: seq<real>, start: Field, flow0: seq<real>, n: nat)
    requires |start.latest| == |start.older|
    ensures var prev := Iterate(k, relaxation, grid, start, n);
      Iterate(k, relaxation, grid, start, n + 1) ==
        Field(Propagate(k, relaxation, grid, prev.latest, prev.older), prev.latest)
    ensures FlowAfter(k, relaxation, grid, start, flow0, n + 1) ==
      Gradient(k, grid, Iterate(k, relaxation, grid, start, n).latest, FlowAfter(k, relaxation, grid, start, flow0, n))
  {
  }

  /** Between two check points the kept reading stays within three steps,
      and no check runs. */
  lemma CheckPointGap(k: Kernels, relaxation: bool, grid: seq<real>, start: Field, n: nat, lastCheck: nat)
    requires |start.latest| == |start.older|
    requires n % 3 != 0
    requires n > 0 ==> 1 <= lastCheck <= n < lastCheck + 3 && IsCheckPoint(lastCheck)
    ensures n > 0 && !IsCheckPoint(n + 1) && n + 1 < lastCheck + 3
    ensures !ConvergedAt(k, relaxation, grid, start, n + 1)
  {
  }

  lemma ParityStep(n: nat)
    ensures ((n + 1) % 2 == 0) == !(n % 2 == 0)
  {
  }

  /** At a check point after step n + 1, the reading kept by the previous
      check is the one taken after step n - 2, so the check decides exactly
      `ConvergedAt(n + 1)`; the first check has nothing to compare with. */
  lemma {:induction false} CheckPointStep(k: Kernels, relaxation: bool, grid: seq<real>, start: Field, n: nat, lastCheck: nat)
    requires |start.latest| == |start.older|
    requires n % 3 == 0
    requires n > 0 ==> 1 <= lastCheck <= n < lastCheck + 3 && IsCheckPoint(lastCheck)
    ensures IsCheckPoint(n + 1)
    ensures n > 0 ==> lastCheck == n + 1 - 3
    ensures n == 0 ==> !ConvergedAt(k, relaxation, grid, start, n + 1)
    ensures n > 0 ==> (ConvergedAt(k, relaxation, grid, start, n + 1) <==>
      Settled(Iterate(k, relaxation, grid, start, n + 1).older, Iterate(k, relaxation, grid, start, lastCheck).older))
  {
  }
}
