/** The CPU reference of the propagation: an 8-neighbour min-plus
    relaxation over a terrain grid with double buffering by iteration
    parity, and the 8-direction gradient toward the lowest neighbour.
    Buffers are numpy 2-D arrays, modelled as `array2<real>` indexed [x, y];
    the specification functions work on snapshots of them. Plotting is not modelled. */
module ReferenceRelaxation {
  import opened Wrappers

  /** A snapshot of a 2-D array: `g[x][y]` is `array[x, y]`. */
  type Grid = seq<seq<real>>

  predicate IsGrid(g: Grid, w: nat, h: nat)
  {
    |g| == w && forall x :: 0 <= x < w ==> |g[x]| == h
  }

  function Snapshot(a: array2<real>): (g: Grid)
    reads a
    ensures Mirrors(a, g)
  {
    seq(a.Length0, x requires 0 <= x < a.Length0 reads a =>
      seq(a.Length1, y requires 0 <= y < a.Length1 reads a => a[x, y]))
  }

  /** The grid holds exactly what the array holds. */
  predicate Mirrors(a: array2<real>, g: Grid)
    reads a
  {
    IsGrid(g, a.Length0, a.Length1) &&
    forall x, y {:trigger a[x, y]} :: 0 <= x < a.Length0 && 0 <= y < a.Length1 ==> g[x][y] == a[x, y]
  }

  /** A mirroring grid is the snapshot. */
  lemma MirrorIsSnapshot(a: array2<real>, g: Grid)
    requires Mirrors(a, g)
    ensures Snapshot(a) == g
  {
    var s := Snapshot(a);
    forall x | 0 <= x < a.Length0
      ensures s[x] == g[x]
    {
    }
  }

  predicate InBounds(x: int, y: int, w: nat, h: nat)
  {
    0 <= x < w && 0 <= y < h
  }

  const ORTHOGONAL_DISTANCE: real := 1.0
  /** `np.sqrt(2.0)`; only its positivity matters to the properties below. */
  const DIAGONAL_DISTANCE: real := 1.4142135623730951

  datatype Offset = Offset(dx: int, dy: int)

  const ORTHOGONAL_NEIGHBORS: seq<Offset> := [Offset(1, 0), Offset(0, 1), Offset(-1, 0), Offset(0, -1)]

  /** A diagonal step and the two orthogonal cells it cuts between. */
  datatype DiagonalNeighbor = DiagonalNeighbor(offset: Offset, gates: seq<Offset>)

  const DIAGONAL_NEIGHBORS: seq<DiagonalNeighbor> := [
    DiagonalNeighbor(Offset(1, 1), [Offset(1, 0), Offset(0, 1)]),
    DiagonalNeighbor(Offset(-1, 1), [Offset(-1, 0), Offset(0, 1)]),
    DiagonalNeighbor(Offset(-1, -1), [Offset(-1, 0), Offset(0, -1)]),
    DiagonalNeighbor(Offset(1, -1), [Offset(1, 0), Offset(0, -1)])]

  /** A distance or Python's `float('inf')`. */
  datatype Dist = Infinity | Finite(v: real)

  /** `t < d` with `d` possibly infinite. */
  predicate Below(t: real, d: Dist)
  {
    d.Infinity? || t < d.v
  }

  /** `is_diagonal_accessible`: every in-grid gate cell has positive terrain;
      gates outside the grid do not block. */
  function IsDiagonalAccessible(T: Grid, w: nat, h: nat, x: int, y: int, gates: seq<Offset>): (r: bool)
    requires IsGrid(T, w, h)
    ensures r <==> forall k :: 0 <= k < |gates| && InBounds(x + gates[k].dx, y + gates[k].dy, w, h) ==>
      T[x + gates[k].dx][y + gates[k].dy] > 0.0
  {
    if |gates| == 0 then true
    else
      var gx, gy := x + gates[0].dx, y + gates[0].dy;
      if InBounds(gx, gy, w, h) && T[gx][gy] <= 0.0 then false
      else
        var rest := IsDiagonalAccessible(T, w, h, x, y, gates[1..]);
        assert forall k :: 1 <= k < |gates| ==> gates[k] == gates[1..][k - 1];
        rest
  }

  /** The loop of `is_diagonal_accessible` with its early return. */
  method DiagonalAccessible(terrain: array2<real>, ghost T: Grid, x: int, y: int, gates: seq<Offset>) returns (accessible: bool)
    requires Mirrors(terrain, T)
    ensures accessible == IsDiagonalAccessible(T, terrain.Length0, terrain.Length1, x, y, gates)
  {
    var w, h := terrain.Length0, terrain.Length1;
    for k := 0 to |gates|
      invariant forall j :: 0 <= j < k && InBounds(x + gates[j].dx, y + gates[j].dy, w, h) ==>
        T[x + gates[j].dx][y + gates[j].dy] > 0.0
    {
      var gx, gy := x + gates[k].dx, y + gates[k].dy;
      if 0 <= gx < w && 0 <= gy < h && terrain[gx, gy] <= 0.0 {
        return false;
      }
    }
    return true;
  }

  /** `calculate_terrain_cost`: infinite on impassable terrain, base×|t| on
      negative terrain, base/t on positive terrain. */
  function TerrainCost(base: real, terrain: real): (c: Dist)
    ensures c.Infinity? <==> terrain == 0.0
  {
    if terrain <= 0.0 then
      if terrain == 0.0 then Infinity else Finite(base * -terrain)
    else Finite(base / terrain)
  }

  /** A positive base gives a positive finite cost on passable terrain; the
      cost scales with |t| on negative terrain and inversely with t on
      positive terrain. */
  lemma TerrainCostPositive(base: real, terrain: real)
    requires base > 0.0 && terrain != 0.0
    ensures TerrainCost(base, terrain).Finite? && TerrainCost(base, terrain).v > 0.0
    ensures terrain < 0.0 ==> TerrainCost(base, terrain).v == base * -terrain
    ensures terrain > 0.0 ==> TerrainCost(base, terrain).v * terrain == base
  {
  }

  // ------------------------------------------------------------ one cell

  /** The candidate an orthogonal neighbour offers a passable cell (x, y):
      only an in-grid neighbour with a positive value and non-zero terrain. */
  function OrthogonalCandidate(T: Grid, C: Grid, w: nat, h: nat, x: nat, y: nat, o: Offset): Option<real>
    requires IsGrid(T, w, h) && IsGrid(C, w, h) && InBounds(x, y, w, h) && T[x][y] != 0.0
  {
    var nx, ny := x + o.dx, y + o.dy;
    if InBounds(nx, ny, w, h) && C[nx][ny] > 0.0 && T[nx][ny] != 0.0
    then Some(C[nx][ny] + TerrainCost(ORTHOGONAL_DISTANCE, T[x][y]).v)
    else None
  }

  /** The candidate a diagonal neighbour offers: as for an orthogonal one,
      and only if the corner is not cut through an impassable gate. */
  function DiagonalCandidate(T: Grid, C: Grid, w: nat, h: nat, x: nat, y: nat, d: DiagonalNeighbor): Option<real>
    requires IsGrid(T, w, h) && IsGrid(C, w, h) && InBounds(x, y, w, h) && T[x][y] != 0.0
  {
    var nx, ny := x + d.offset.dx, y + d.offset.dy;
    if InBounds(nx, ny, w, h) && IsDiagonalAccessible(T, w, h, x, y, d.gates) && C[nx][ny] > 0.0 && T[nx][ny] != 0.0
    then Some(C[nx][ny] + TerrainCost(DIAGONAL_DISTANCE, T[x][y]).v)
    else None
  }

  /** The eight candidates in scan order: the orthogonal ones, then the diagonal ones. */
  function Candidates(T: Grid, C: Grid, w: nat, h: nat, x: nat, y: nat): (cs: seq<Option<real>>)
    requires IsGrid(T, w, h) && IsGrid(C, w, h) && InBounds(x, y, w, h) && T[x][y] != 0.0
    ensures |cs| == 8
  {
    seq(4, k requires 0 <= k < 4 => OrthogonalCandidate(T, C, w, h, x, y, ORTHOGONAL_NEIGHBORS[k])) +
    seq(4, k requires 0 <= k < 4 => DiagonalCandidate(T, C, w, h, x, y, DIAGONAL_NEIGHBORS[k]))
  }

  /** The running minimum and the `found_improvement` flag. */
  datatype Search = Search(best: Dist, found: bool)

  function ScanStep(s: Search, c: Option<real>): Search
  {
    if c.Some? && Below(c.value, s.best) then Search(Finite(c.value), true) else s
  }

  /** The scan of the first n candidates from the initial minimum `init`,
      left to right, replacing the minimum only by a strictly smaller one. */
  function Scan(cs: seq<Option<real>>, n: nat, init: Dist): (r: Search)
    requires n <= |cs|
    ensures r.found ==> r.best.Finite? && Below(r.best.v, init)
    ensures !r.found ==> r.best == init
  {
    if n == 0 then Search(init, false)
    else ScanStep(Scan(cs, n - 1, init), cs[n - 1])
  }

  /** A scan that finds an improvement ends on one of the candidates, no
      larger than any candidate; one that finds none saw no candidate below
      the initial minimum. */
  lemma {:induction false} ScanMinimal(cs: seq<Option<real>>, n: nat, init: Dist)
    requires n <= |cs|
    ensures var r := Scan(cs, n, init);
      r.found ==> (exists k :: 0 <= k < n && cs[k] == Some(r.best.v)) &&
                  (forall k :: 0 <= k < n && cs[k].Some? ==> r.best.v <= cs[k].value)
    ensures var r := Scan(cs, n, init);
      !r.found ==> forall k :: 0 <= k < n && cs[k].Some? ==> !Below(cs[k].value, init)
  {
    if n > 0 {
      ScanMinimal(cs, n - 1, init);
    }
  }

  /** The minimum a cell starts from: its value if positive, else infinity. */
  function InitialMin(v: real): Dist
  {
    if v > 0.0 then Finite(v) else Infinity
  }

  /** Whether the update branch runs for (x, y) (and so sets `changed`). */
  predicate CellUpdated(T: Grid, C: Grid, w: nat, h: nat, x: nat, y: nat)
    requires IsGrid(T, w, h) && IsGrid(C, w, h) && InBounds(x, y, w, h)
  {
    T[x][y] != 0.0 &&
    var s := Scan(Candidates(T, C, w, h, x, y), 8, InitialMin(C[x][y]));
    s.found || (C[x][y] == 0.0 && s.best.Finite?)
  }

  /** The value cell (x, y) holds in the next buffer. */
  function NewValue(T: Grid, C: Grid, w: nat, h: nat, x: nat, y: nat): real
    requires IsGrid(T, w, h) && IsGrid(C, w, h) && InBounds(x, y, w, h)
  {
    if T[x][y] == 0.0 then 0.0
    else
      var s := Scan(Candidates(T, C, w, h, x, y), 8, InitialMin(C[x][y]));
      if s.found || (C[x][y] == 0.0 && s.best.Finite?) then s.best.v else C[x][y]
  }

  /** Impassable cells are written 0 and never count as a change. */
  lemma ObstacleCellsZeroed(T: Grid, C: Grid, w: nat, h: nat, x: nat, y: nat)
    requires IsGrid(T, w, h) && IsGrid(C, w, h) && InBounds(x, y, w, h) && T[x][y] == 0.0
    ensures NewValue(T, C, w, h, x, y) == 0.0 && !CellUpdated(T, C, w, h, x, y)
  {
  }

  /** A passable cell keeps its value unless it is updated; a positive value
      never increases, and changes only to a strictly smaller one. */
  lemma PositiveNeverIncreases(T: Grid, C: Grid, w: nat, h: nat, x: nat, y: nat)
    requires IsGrid(T, w, h) && IsGrid(C, w, h) && InBounds(x, y, w, h) && T[x][y] != 0.0
    ensures !CellUpdated(T, C, w, h, x, y) ==> NewValue(T, C, w, h, x, y) == C[x][y]
    ensures C[x][y] > 0.0 ==> NewValue(T, C, w, h, x, y) <= C[x][y]
    ensures C[x][y] > 0.0 && CellUpdated(T, C, w, h, x, y) ==> NewValue(T, C, w, h, x, y) < C[x][y]
  {
  }

  /** An updated cell takes the smallest candidate on offer. */
  lemma UpdatedTakesMinimum(T: Grid, C: Grid, w: nat, h: nat, x: nat, y: nat)
    requires IsGrid(T, w, h) && IsGrid(C, w, h) && InBounds(x, y, w, h)
    requires CellUpdated(T, C, w, h, x, y)
    ensures var v := NewValue(T, C, w, h, x, y);
      forall k :: 0 <= k < 8 && Candidates(T, C, w, h, x, y)[k].Some? ==> v <= Candidates(T, C, w, h, x, y)[k].value
  {
    ScanMinimal(Candidates(T, C, w, h, x, y), 8, InitialMin(C[x][y]));
  }

  /** The value an updated cell takes comes from an in-grid neighbour with a
      positive value and non-zero terrain (through an open corner for a
      diagonal), plus the cost of entering the cell. */
  lemma ImprovementFromNeighbour(T: Grid, C: Grid, w: nat, h: nat, x: nat, y: nat)
    requires IsGrid(T, w, h) && IsGrid(C, w, h) && InBounds(x, y, w, h)
    requires CellUpdated(T, C, w, h, x, y)
    ensures var v := NewValue(T, C, w, h, x, y);
      (exists k :: 0 <= k < 4 && FromOrthogonal(T, C, w, h, x, y, ORTHOGONAL_NEIGHBORS[k], v)) ||
      (exists k :: 0 <= k < 4 && FromDiagonal(T, C, w, h, x, y, DIAGONAL_NEIGHBORS[k], v))
  {
    var cs := Candidates(T, C, w, h, x, y);
    var v := NewValue(T, C, w, h, x, y);
    ScanMinimal(cs, 8, InitialMin(C[x][y]));
    var k :| 0 <= k < 8 && cs[k] == Some(v);
    CandidateAt(T, C, w, h, x, y, k);
    if k < 4 {
      OrthogonalSource(T, C, w, h, x, y, ORTHOGONAL_NEIGHBORS[k], v);
    } else {
      DiagonalSource(T, C, w, h, x, y, DIAGONAL_NEIGHBORS[k - 4], v);
    }
  }

  lemma OrthogonalSource(T: Grid, C: Grid, w: nat, h: nat, x: nat, y: nat, o: Offset, v: real)
    requires IsGrid(T, w, h) && IsGrid(C, w, h) && InBounds(x, y, w, h) && T[x][y] != 0.0
    requires OrthogonalCandidate(T, C, w, h, x, y, o) == Some(v)
    ensures FromOrthogonal(T, C, w, h, x, y, o, v)
  {
  }

  lemma DiagonalSource(T: Grid, C: Grid, w: nat, h: nat, x: nat, y: nat, d: DiagonalNeighbor, v: real)
    requires IsGrid(T, w, h) && IsGrid(C, w, h) && InBounds(x, y, w, h) && T[x][y] != 0.0
    requires DiagonalCandidate(T, C, w, h, x, y, d) == Some(v)
    ensures FromDiagonal(T, C, w, h, x, y, d, v)
  {
  }

  lemma CandidateAt(T: Grid, C: Grid, w: nat, h: nat, x: nat, y: nat, k: nat)
    requires IsGrid(T, w, h) && IsGrid(C, w, h) && InBounds(x, y, w, h) && T[x][y] != 0.0 && k < 8
    ensures k < 4 ==> Candidates(T, C, w, h, x, y)[k] == OrthogonalCandidate(T, C, w, h, x, y, ORTHOGONAL_NEIGHBORS[k])
    ensures 4 <= k ==> Candidates(T, C, w, h, x, y)[k] == DiagonalCandidate(T, C, w, h, x, y, DIAGONAL_NEIGHBORS[k - 4])
  {
  }

  predicate FromOrthogonal(T: Grid, C: Grid, w: nat, h: nat, x: nat, y: nat, o: Offset, v: real)
    requires IsGrid(T, w, h) && IsGrid(C, w, h) && InBounds(x, y, w, h)
  {
    var nx, ny := x + o.dx, y + o.dy;
    InBounds(nx, ny, w, h) && C[nx][ny] > 0.0 && T[nx][ny] != 0.0 && T[x][y] != 0.0 &&
    v == C[nx][ny] + TerrainCost(ORTHOGONAL_DISTANCE, T[x][y]).v
  }

  predicate FromDiagonal(T: Grid, C: Grid, w: nat, h: nat, x: nat, y: nat, d: DiagonalNeighbor, v: real)
    requires IsGrid(T, w, h) && IsGrid(C, w, h) && InBounds(x, y, w, h)
  {
    var nx, ny := x + d.offset.dx, y + d.offset.dy;
    InBounds(nx, ny, w, h) && C[nx][ny] > 0.0 && T[nx][ny] != 0.0 && T[x][y] != 0.0 &&
    (forall j :: 0 <= j < |d.gates| && InBounds(x + d.gates[j].dx, y + d.gates[j].dy, w, h) ==>
       T[x + d.gates[j].dx][y + d.gates[j].dy] > 0.0) &&
    v == C[nx][ny] + TerrainCost(DIAGONAL_DISTANCE, T[x][y]).v
  }

  /** A diagonal whose in-grid gate cell is impassable offers no candidate. */
  lemma ClosedCornerBlocksDiagonal(T: Grid, C: Grid, w: nat, h: nat, x: nat, y: nat, k: nat, g: nat)
    requires IsGrid(T, w, h) && IsGrid(C, w, h) && InBounds(x, y, w, h) && T[x][y] != 0.0
    requires k < 4 && g < 2
    requires var gate := DIAGONAL_NEIGHBORS[k].gates[g];
      InBounds(x + gate.dx, y + gate.dy, w, h) && T[x + gate.dx][y + gate.dy] <= 0.0
    ensures Candidates(T, C, w, h, x, y)[4 + k] == None
  {
    assert |DIAGONAL_NEIGHBORS[k].gates| == 2;
    assert !IsDiagonalAccessible(T, w, h, x, y, DIAGONAL_NEIGHBORS[k].gates);
  }

  // ------------------------------------------------------------ whole grid

  /** Column x of the next buffer. */
  function StepColumn(T: Grid, C: Grid, w: nat, h: nat, x: nat): (col: seq<real>)
    requires IsGrid(T, w, h) && IsGrid(C, w, h) && x < w
    ensures |col| == h
  {
    seq(h, y requires 0 <= y < h => NewValue(T, C, w, h, x, y))
  }

  /** The first n columns of the next buffer. */
  function StepColumns(T: Grid, C: Grid, w: nat, h: nat, n: nat): (N: Grid)
    requires IsGrid(T, w, h) && IsGrid(C, w, h) && n <= w
    ensures IsGrid(N, n, h)
  {
    if n == 0 then [] else StepColumns(T, C, w, h, n - 1) + [StepColumn(T, C, w, h, n - 1)]
  }

  /** The next buffer after one iteration from C. */
  function StepGrid(T: Grid, C: Grid, w: nat, h: nat): (N: Grid)
    requires IsGrid(T, w, h) && IsGrid(C, w, h)
    ensures IsGrid(N, w, h)
  {
    StepColumns(T, C, w, h, w)
  }

  lemma {:induction false} StepColumnsAt(T: Grid, C: Grid, w: nat, h: nat, n: nat)
    requires IsGrid(T, w, h) && IsGrid(C, w, h) && n <= w
    ensures forall x, y :: 0 <= x < n && 0 <= y < h ==> StepColumns(T, C, w, h, n)[x][y] == NewValue(T, C, w, h, x, y)
  {
    if n > 0 {
      StepColumnsAt(T, C, w, h, n - 1);
    }
  }

  /** Whether an iteration from C sets `changed`. */
  ghost predicate GridChanged(T: Grid, C: Grid, w: nat, h: nat)
    requires IsGrid(T, w, h) && IsGrid(C, w, h)
  {
    exists x, y :: InBounds(x, y, w, h) && CellUpdated(T, C, w, h, x, y)
  }

  /** The buffer after k iterations from C0. */
  function Iterate(T: Grid, C0: Grid, w: nat, h: nat, k: nat): (C: Grid)
    requires IsGrid(T, w, h) && IsGrid(C0, w, h)
    ensures IsGrid(C, w, h)
  {
    if k == 0 then C0 else StepGrid(T, Iterate(T, C0, w, h, k - 1), w, h)
  }

  /** The neighbour check of the orthogonal loop: the total distance through
      neighbour o, if it may be entered from. */
  method OrthogonalOffer(current: array2<real>, terrain: array2<real>, ghost T: Grid, ghost C: Grid, x: nat, y: nat, o: Offset)
    returns (candidate: Option<real>)
    requires current.Length0 == terrain.Length0 && current.Length1 == terrain.Length1
    requires Mirrors(terrain, T) && Mirrors(current, C)
    requires InBounds(x, y, terrain.Length0, terrain.Length1) && terrain[x, y] != 0.0
    ensures candidate == OrthogonalCandidate(T, C, terrain.Length0, terrain.Length1, x, y, o)
  {
    var nx, ny := x + o.dx, y + o.dy;
    candidate := None;
    if 0 <= nx < terrain.Length0 && 0 <= ny < terrain.Length1 {
      var neighborVal := current[nx, ny];
      if neighborVal > 0.0 && terrain[nx, ny] != 0.0 {
        var terrainCost := TerrainCost(ORTHOGONAL_DISTANCE, terrain[x, y]);
        candidate := Some(neighborVal + terrainCost.v);
      }
    }
  }

  /** The neighbour check of the diagonal loop, with the corner gate. */
  method DiagonalOffer(current: array2<real>, terrain: array2<real>, ghost T: Grid, ghost C: Grid, x: nat, y: nat,
                       d: DiagonalNeighbor) returns (candidate: Option<real>)
    requires current.Length0 == terrain.Length0 && current.Length1 == terrain.Length1
    requires Mirrors(terrain, T) && Mirrors(current, C)
    requires InBounds(x, y, terrain.Length0, terrain.Length1) && terrain[x, y] != 0.0
    ensures candidate == DiagonalCandidate(T, C, terrain.Length0, terrain.Length1, x, y, d)
  {
    var nx, ny := x + d.offset.dx, y + d.offset.dy;
    candidate := None;
    if 0 <= nx < terrain.Length0 && 0 <= ny < terrain.Length1 {
      var accessible := DiagonalAccessible(terrain, T, x, y, d.gates);
      if accessible {
        var neighborVal := current[nx, ny];
        if neighborVal > 0.0 && terrain[nx, ny] != 0.0 {
          var terrainCost := TerrainCost(DIAGONAL_DISTANCE, terrain[x, y]);
          candidate := Some(neighborVal + terrainCost.v);
        }
      }
    }
  }

  /** The body of one iteration for a passable cell: the scan of the
      orthogonal, then the diagonal neighbours with a running minimum. */
  method RelaxCell(current: array2<real>, terrain: array2<real>, ghost T: Grid, ghost C: Grid, x: nat, y: nat)
    returns (minTotalDistance: Dist, updated: bool)
    requires current.Length0 == terrain.Length0 && current.Length1 == terrain.Length1
    requires Mirrors(terrain, T) && Mirrors(current, C)
    requires InBounds(x, y, terrain.Length0, terrain.Length1) && terrain[x, y] != 0.0
    ensures updated == CellUpdated(T, C, terrain.Length0, terrain.Length1, x, y)
    ensures updated ==> minTotalDistance == Finite(NewValue(T, C, terrain.Length0, terrain.Length1, x, y))
  {
    var w, h := terrain.Length0, terrain.Length1;
    ghost var cs := Candidates(T, C, w, h, x, y);
    var currentValue := current[x, y];
    ghost var init := InitialMin(currentValue);
    minTotalDistance := if currentValue > 0.0 then Finite(currentValue) else Infinity;
    var foundImprovement := false;
    for k := 0 to 4
      invariant Search(minTotalDistance, foundImprovement) == Scan(cs, k, init)
    {
      var candidate := OrthogonalOffer(current, terrain, T, C, x, y, ORTHOGONAL_NEIGHBORS[k]);
      CandidateAt(T, C, w, h, x, y, k);
      if candidate.Some? && Below(candidate.value, minTotalDistance) {
        minTotalDistance := Finite(candidate.value);
        foundImprovement := true;
      }
    }
    for k := 0 to 4
      invariant Search(minTotalDistance, foundImprovement) == Scan(cs, 4 + k, init)
    {
      var candidate := DiagonalOffer(current, terrain, T, C, x, y, DIAGONAL_NEIGHBORS[k]);
      CandidateAt(T, C, w, h, x, y, 4 + k);
      if candidate.Some? && Below(candidate.value, minTotalDistance) {
        minTotalDistance := Finite(candidate.value);
        foundImprovement := true;
      }
    }
    updated := foundImprovement || (currentValue == 0.0 && minTotalDistance.Finite?);
  }

  /** `nextBuffer[:] = currentBuffer[:]`. */
  method CopyBuffer(source: array2<real>, target: array2<real>, ghost C: Grid)
    requires source != target && Mirrors(source, C)
    requires source.Length0 == target.Length0 && source.Length1 == target.Length1
    modifies target
    ensures Mirrors(target, C)
  {
    for x := 0 to target.Length0
      invariant forall x', y' :: 0 <= x' < x && 0 <= y' < target.Length1 ==> target[x', y'] == C[x'][y']
    {
      for y := 0 to target.Length1
        invariant forall x', y' :: (0 <= x' < x || (x' == x && 0 <= y' < y)) && 0 <= y' < target.Length1 ==>
          target[x', y'] == C[x'][y']
      {
        target[x, y] := source[x, y];
      }
    }
  }

  /** One iteration: copy the current buffer into the next one, then write
      0 on impassable cells and the improved value on updated cells. T and
      C are the terrain and the current buffer as grids. */
  method RelaxationIteration(current: array2<real>, next: array2<real>, terrain: array2<real>, ghost T: Grid, ghost C: Grid)
    returns (changed: bool)
    requires current != next && terrain != next
    requires current.Length0 == next.Length0 == terrain.Length0
    requires current.Length1 == next.Length1 == terrain.Length1
    requires Mirrors(terrain, T) && Mirrors(current, C)
    modifies next
    ensures Mirrors(next, StepGrid(T, C, terrain.Length0, terrain.Length1))
    ensures changed == GridChanged(T, C, terrain.Length0, terrain.Length1)
  {
    var w, h := terrain.Length0, terrain.Length1;
    StepColumnsAt(T, C, w, h, w);
    CopyBuffer(current, next, C);
    changed := false;
    for x := 0 to w
      invariant forall x', y' :: 0 <= x' < x && 0 <= y' < h ==> next[x', y'] == NewValue(T, C, w, h, x', y')
      invariant forall x', y' :: x <= x' < w && 0 <= y' < h ==> next[x', y'] == C[x'][y']
      invariant changed <==> exists x', y' :: 0 <= x' < x && 0 <= y' < h && CellUpdated(T, C, w, h, x', y')
    {
      var columnChanged := RelaxColumn(current, next, terrain, T, C, x);
      changed := changed || columnChanged;
    }
  }

  /** The inner loop of one iteration: column x of `next` receives the new
      values, every other column is left as it was. */
  method RelaxColumn(current: array2<real>, next: array2<real>, terrain: array2<real>, ghost T: Grid, ghost C: Grid, x: int)
    returns (changed: bool)
    requires current != next && terrain != next
    requires current.Length0 == next.Length0 == terrain.Length0
    requires current.Length1 == next.Length1 == terrain.Length1
    requires Mirrors(terrain, T) && Mirrors(current, C)
    requires 0 <= x < terrain.Length0
    requires forall y' :: 0 <= y' < terrain.Length1 ==> next[x, y'] == C[x][y']
    modifies next
    ensures forall y' :: 0 <= y' < terrain.Length1 ==>
      next[x, y'] == NewValue(T, C, terrain.Length0, terrain.Length1, x, y')
    ensures forall x', y' :: 0 <= x' < terrain.Length0 && x' != x && 0 <= y' < terrain.Length1 ==>
      next[x', y'] == old(next[x', y'])
    ensures changed <==> (exists y' :: 0 <= y' < terrain.Length1 &&
                                       CellUpdated(T, C, terrain.Length0, terrain.Length1, x, y'))
  {
    var w, h := terrain.Length0, terrain.Length1;
    changed := false;
    for y := 0 to h
      invariant forall y' :: 0 <= y' < y ==> next[x, y'] == NewValue(T, C, w, h, x, y')
      invariant forall y' :: y <= y' < h ==> next[x, y'] == C[x][y']
      invariant forall x', y' :: 0 <= x' < w && x' != x && 0 <= y' < h ==> next[x', y'] == old(next[x', y'])
      invariant changed <==> exists y' :: 0 <= y' < y && CellUpdated(T, C, w, h, x, y')
    {
      if terrain[x, y] == 0.0 {
        next[x, y] := 0.0;
        continue;
      }
      var minTotalDistance, updated := RelaxCell(current, terrain, T, C, x, y);
      if updated {
        next[x, y] := minTotalDistance.v;
        changed := true;
      }
    }
  }


  /** The copies recorded by the first n iterations. */
  ghost function Trace(T: Grid, C0: Grid, w: nat, h: nat, n: nat): (r: seq<Grid>)
    requires IsGrid(T, w, h) && IsGrid(C0, w, h)
    ensures |r| == n
  {
    if n == 0 then [] else Trace(T, C0, w, h, n - 1) + [Iterate(T, C0, w, h, n)]
  }

  lemma IterateStep(T: Grid, C0: Grid, w: nat, h: nat, n: nat)
    requires IsGrid(T, w, h) && IsGrid(C0, w, h)
    ensures Iterate(T, C0, w, h, n + 1) == StepGrid(T, Iterate(T, C0, w, h, n), w, h)
  {
  }

  lemma TraceStep(T: Grid, C0: Grid, w: nat, h: nat, n: nat)
    requires IsGrid(T, w, h) && IsGrid(C0, w, h)
    ensures Trace(T, C0, w, h, n + 1) == Trace(T, C0, w, h, n) + [Iterate(T, C0, w, h, n + 1)]
  {
  }

  /** The k-th recorded copy is the buffer after k + 1 iterations. */
  lemma {:induction false} TraceAt(T: Grid, C0: Grid, w: nat, h: nat, n: nat)
    requires IsGrid(T, w, h) && IsGrid(C0, w, h)
    ensures forall k :: 0 <= k < n ==> Trace(T, C0, w, h, n)[k] == Iterate(T, C0, w, h, k + 1)
  {
    if n > 0 {
      TraceAt(T, C0, w, h, n - 1);
    }
  }

  /** `bfsDistanceFieldTerrainRelaxed`: iteration k reads ping when k is
      even and pong when it is odd, writes the other, and records a copy of
      what it wrote; the run stops after the first iteration that changes
      nothing, or after `maxIterations`. T and C0 are the terrain and the
      initial ping buffer as grids. */
  /** One pass of the iteration loop: the buffer chosen by the parity of
      `iteration` is relaxed into the other one, which then holds the next
      iterate; `snap` is the copy recorded for it. */
  method AdvanceOnce(pingBuffer: array2<real>, pongBuffer: array2<real>, terrainBuffer: array2<real>,
                     iteration: nat, ghost T: Grid, ghost C0: Grid) returns (changed: bool, snap: Grid)
    requires pingBuffer != pongBuffer && terrainBuffer != pingBuffer && terrainBuffer != pongBuffer
    requires pingBuffer.Length0 == pongBuffer.Length0 == terrainBuffer.Length0
    requires pingBuffer.Length1 == pongBuffer.Length1 == terrainBuffer.Length1
    requires Mirrors(terrainBuffer, T) && IsGrid(C0, terrainBuffer.Length0, terrainBuffer.Length1)
    requires Mirrors(if iteration % 2 == 0 then pingBuffer else pongBuffer,
                     Iterate(T, C0, terrainBuffer.Length0, terrainBuffer.Length1, iteration))
    modifies pingBuffer, pongBuffer
    ensures Mirrors(if (iteration + 1) % 2 == 0 then pingBuffer else pongBuffer,
                    Iterate(T, C0, terrainBuffer.Length0, terrainBuffer.Length1, iteration + 1))
    ensures snap == Iterate(T, C0, terrainBuffer.Length0, terrainBuffer.Length1, iteration + 1)
    ensures changed == GridChanged(T, Iterate(T, C0, terrainBuffer.Length0, terrainBuffer.Length1, iteration),
                                   terrainBuffer.Length0, terrainBuffer.Length1)
  {
    var w, h := terrainBuffer.Length0, terrainBuffer.Length1;
    var currentBuffer, nextBuffer := pingBuffer, pongBuffer;
    if iteration % 2 != 0 {
      currentBuffer, nextBuffer := pongBuffer, pingBuffer;
    }
    ghost var C := Iterate(T, C0, w, h, iteration);
    changed := RelaxationIteration(currentBuffer, nextBuffer, terrainBuffer, T, C);
    ghost var N := Iterate(T, C0, w, h, iteration + 1);
    IterateStep(T, C0, w, h, iteration);
    ParityFlips(iteration);
    MirrorIsSnapshot(nextBuffer, N);
    snap := Snapshot(nextBuffer);
  }

  method BfsDistanceFieldTerrainRelaxed(pingBuffer: array2<real>, pongBuffer: array2<real>, terrainBuffer: array2<real>,
                                        maxIterations: nat, ghost T: Grid, ghost C0: Grid) returns (results: seq<Grid>)
    requires pingBuffer != pongBuffer && terrainBuffer != pingBuffer && terrainBuffer != pongBuffer
    requires pingBuffer.Length0 == pongBuffer.Length0 == terrainBuffer.Length0
    requires pingBuffer.Length1 == pongBuffer.Length1 == terrainBuffer.Length1
    requires Mirrors(terrainBuffer, T) && Mirrors(pingBuffer, C0)
    modifies pingBuffer, pongBuffer
    ensures |results| <= maxIterations && (maxIterations > 0 ==> |results| >= 1)
    ensures results == Trace(T, C0, terrainBuffer.Length0, terrainBuffer.Length1, |results|)
    ensures forall k :: 0 <= k < |results| - 1 ==>
      GridChanged(T, Iterate(T, C0, terrainBuffer.Length0, terrainBuffer.Length1, k), terrainBuffer.Length0, terrainBuffer.Length1)
    ensures 0 < |results| < maxIterations ==>
      !GridChanged(T, Iterate(T, C0, terrainBuffer.Length0, terrainBuffer.Length1, |results| - 1),
                   terrainBuffer.Length0, terrainBuffer.Length1)
  {
    var w, h := terrainBuffer.Length0, terrainBuffer.Length1;
    results := [];
    var iteration := 0;
    while iteration < maxIterations
      invariant iteration <= maxIterations && |results| == iteration
      invariant Mirrors(terrainBuffer, T)
      invariant Mirrors(if iteration % 2 == 0 then pingBuffer else pongBuffer, Iterate(T, C0, w, h, iteration))
      invariant results == Trace(T, C0, w, h, iteration)
      invariant forall k :: 0 <= k < iteration ==> GridChanged(T, Iterate(T, C0, w, h, k), w, h)
    {
      var changed, snap := AdvanceOnce(pingBuffer, pongBuffer, terrainBuffer, iteration, T, C0);
      results := results + [snap];
      TraceStep(T, C0, w, h, iteration);
      if !changed {
        assert results == Trace(T, C0, w, h, iteration + 1);
        assert !GridChanged(T, Iterate(T, C0, w, h, |results| - 1), w, h);
        break;
      }
      iteration := iteration + 1;
    }
  }

  lemma ParityFlips(i: nat)
    ensures (i + 1) % 2 == 0 <==> i % 2 != 0
  {
  }

  // ------------------------------------------------------------ gradient

  /** Neighbour order of `simpleDirectionalGradient`. */
  const GRADIENT_NEIGHBORS: seq<Offset> := [
    Offset(1, 0), Offset(0, 1), Offset(-1, 0), Offset(0, -1),
    Offset(1, 1), Offset(-1, 1), Offset(-1, -1), Offset(1, -1)]

  const SQRT2_INV: real := 1.0 / DIAGONAL_DISTANCE

  /** The (gradient_x, gradient_y) vector written for each neighbour, in the same order. */
  const DIRECTION_VECTORS: seq<(real, real)> := [
    (0.0, 1.0), (1.0, 0.0), (0.0, -1.0), (-1.0, 0.0),
    (SQRT2_INV, SQRT2_INV), (SQRT2_INV, -SQRT2_INV), (-SQRT2_INV, -SQRT2_INV), (-SQRT2_INV, SQRT2_INV)]

  /** A neighbour that may be pointed at: in the grid, passable, with a positive value. */
  predicate Pointable(T: Grid, D: Grid, w: nat, h: nat, x: nat, y: nat, k: nat)
    requires IsGrid(T, w, h) && IsGrid(D, w, h) && k < 8
  {
    var nx, ny := x + GRADIENT_NEIGHBORS[k].dx, y + GRADIENT_NEIGHBORS[k].dy;
    InBounds(nx, ny, w, h) && T[nx][ny] != 0.0 && D[nx][ny] > 0.0
  }

  function NeighbourValue(D: Grid, w: nat, h: nat, x: nat, y: nat, k: nat): real
    requires IsGrid(D, w, h) && k < 8
    requires InBounds(x + GRADIENT_NEIGHBORS[k].dx, y + GRADIENT_NEIGHBORS[k].dy, w, h)
  {
    D[x + GRADIENT_NEIGHBORS[k].dx][y + GRADIENT_NEIGHBORS[k].dy]
  }

  /** The running (min_value, best_direction) after the first n neighbours. */
  function LowestScan(T: Grid, D: Grid, w: nat, h: nat, x: nat, y: nat, n: nat): (r: (real, Option<nat>))
    requires IsGrid(T, w, h) && IsGrid(D, w, h) && InBounds(x, y, w, h) && n <= 8
    ensures r.1.Some? ==> r.1.value < n
  {
    if n == 0 then (D[x][y], None)
    else
      var r := LowestScan(T, D, w, h, x, y, n - 1);
      if Pointable(T, D, w, h, x, y, n - 1) && NeighbourValue(D, w, h, x, y, n - 1) < r.0
      then (NeighbourValue(D, w, h, x, y, n - 1), Some(n - 1))
      else r
  }

  /** The scan's minimum is the cell's own value or the value of the chosen
      pointable neighbour, strictly below the cell's value; no pointable
      neighbour scanned is lower, and every one before the chosen one is
      strictly higher. */
  lemma {:induction false} LowestScanMinimal(T: Grid, D: Grid, w: nat, h: nat, x: nat, y: nat, n: nat)
    requires IsGrid(T, w, h) && IsGrid(D, w, h) && InBounds(x, y, w, h) && n <= 8
    ensures var r := LowestScan(T, D, w, h, x, y, n);
      r.1.Some? ==> (Pointable(T, D, w, h, x, y, r.1.value) &&
                     NeighbourValue(D, w, h, x, y, r.1.value) == r.0 && r.0 < D[x][y])
    ensures var r := LowestScan(T, D, w, h, x, y, n);
      r.1.None? ==> r.0 == D[x][y]
    ensures var r := LowestScan(T, D, w, h, x, y, n);
      forall k :: 0 <= k < n && Pointable(T, D, w, h, x, y, k) ==> r.0 <= NeighbourValue(D, w, h, x, y, k)
    ensures var r := LowestScan(T, D, w, h, x, y, n);
      r.1.Some? ==> forall k :: 0 <= k < r.1.value && Pointable(T, D, w, h, x, y, k) ==>
        r.0 < NeighbourValue(D, w, h, x, y, k)
  {
    if n > 0 {
      LowestScanMinimal(T, D, w, h, x, y, n - 1);
    }
  }

  /** The vector written for cell (x, y). */
  function GradientAt(T: Grid, D: Grid, w: nat, h: nat, x: nat, y: nat): (real, real)
    requires IsGrid(T, w, h) && IsGrid(D, w, h) && InBounds(x, y, w, h)
  {
    if T[x][y] == 0.0 || D[x][y] == 0.0 then (0.0, 0.0)
    else
      var r := LowestScan(T, D, w, h, x, y, 8);
      if r.1.Some? then DIRECTION_VECTORS[r.1.value] else (0.0, 0.0)
  }

  /** The gradient is zero on impassable and unreached cells and where no
      neighbour is lower; otherwise it is the direction of the first
      strictly lowest pointable neighbour. */
  lemma GradientTowardLowest(T: Grid, D: Grid, w: nat, h: nat, x: nat, y: nat)
    requires IsGrid(T, w, h) && IsGrid(D, w, h) && InBounds(x, y, w, h)
    ensures T[x][y] == 0.0 || D[x][y] == 0.0 ==> GradientAt(T, D, w, h, x, y) == (0.0, 0.0)
    ensures T[x][y] != 0.0 && D[x][y] != 0.0 ==>
      ((forall k :: 0 <= k < 8 && Pointable(T, D, w, h, x, y, k) ==> NeighbourValue(D, w, h, x, y, k) >= D[x][y])
        ==> GradientAt(T, D, w, h, x, y) == (0.0, 0.0))
    ensures T[x][y] != 0.0 && D[x][y] != 0.0 ==>
      forall k :: 0 <= k < 8 && Pointable(T, D, w, h, x, y, k) && NeighbourValue(D, w, h, x, y, k) < D[x][y] ==>
        exists b :: 0 <= b < 8 && GradientAt(T, D, w, h, x, y) == DIRECTION_VECTORS[b] &&
          Pointable(T, D, w, h, x, y, b) && NeighbourValue(D, w, h, x, y, b) <= NeighbourValue(D, w, h, x, y, k) &&
          (forall j :: 0 <= j < b && Pointable(T, D, w, h, x, y, j) ==> NeighbourValue(D, w, h, x, y, j) > NeighbourValue(D, w, h, x, y, b))
  {
    if T[x][y] != 0.0 && D[x][y] != 0.0 {
      LowestScanMinimal(T, D, w, h, x, y, 8);
      var r := LowestScan(T, D, w, h, x, y, 8);
      if r.1.Some? {
        var b := r.1.value;
        assert GradientAt(T, D, w, h, x, y) == DIRECTION_VECTORS[b];
      }
    }
  }

  /** The scan of the eight neighbours of (x, y) for the strictly lowest
      pointable value, starting from the cell's own value. */
  method LowestNeighbour(terrainGrid: array2<real>, distanceField: array2<real>, ghost T: Grid, ghost D: Grid, x: nat, y: nat)
    returns (bestDirection: Option<nat>)
    requires Mirrors(terrainGrid, T) && Mirrors(distanceField, D)
    requires terrainGrid.Length0 == distanceField.Length0 && terrainGrid.Length1 == distanceField.Length1
    requires InBounds(x, y, distanceField.Length0, distanceField.Length1)
    ensures bestDirection == LowestScan(T, D, distanceField.Length0, distanceField.Length1, x, y, 8).1
  {
    var w, h := distanceField.Length0, distanceField.Length1;
    var minValue := distanceField[x, y];
    bestDirection := None;
    for i := 0 to 8
      invariant (minValue, bestDirection) == LowestScan(T, D, w, h, x, y, i)
    {
      var nx, ny := x + GRADIENT_NEIGHBORS[i].dx, y + GRADIENT_NEIGHBORS[i].dy;
      if 0 <= nx < w && 0 <= ny < h && terrainGrid[nx, ny] != 0.0 && distanceField[nx, ny] > 0.0 {
        if distanceField[nx, ny] < minValue {
          minValue := distanceField[nx, ny];
          bestDirection := Some(i);
        }
      }
    }
  }

  /** `simpleDirectionalGradient`: zero-initialised component arrays, filled
      cell by cell with the direction of the first strictly lowest neighbour. */
  method SimpleDirectionalGradient(terrainGrid: array2<real>, distanceField: array2<real>)
    returns (gradientX: array2<real>, gradientY: array2<real>)
    requires terrainGrid.Length0 == distanceField.Length0 && terrainGrid.Length1 == distanceField.Length1
    ensures fresh(gradientX) && fresh(gradientY)
    ensures gradientX.Length0 == gradientY.Length0 == distanceField.Length0
    ensures gradientX.Length1 == gradientY.Length1 == distanceField.Length1
    ensures forall x, y :: InBounds(x, y, distanceField.Length0, distanceField.Length1) ==>
      (gradientX[x, y], gradientY[x, y]) ==
        GradientAt(Snapshot(terrainGrid), Snapshot(distanceField), distanceField.Length0, distanceField.Length1, x, y)
  {
    var w, h := distanceField.Length0, distanceField.Length1;
    ghost var T := Snapshot(terrainGrid);
    ghost var D := Snapshot(distanceField);
    gradientX := new real[w, h]((_, _) => 0.0);
    gradientY := new real[w, h]((_, _) => 0.0);
    for x := 0 to w
      invariant forall x', y' :: 0 <= x' < x && 0 <= y' < h ==> (gradientX[x', y'], gradientY[x', y']) == GradientAt(T, D, w, h, x', y')
      invariant forall x', y' :: x <= x' < w && 0 <= y' < h ==> gradientX[x', y'] == 0.0 && gradientY[x', y'] == 0.0
    {
      GradientColumn(terrainGrid, distanceField, gradientX, gradientY, T, D, x);
    }
  }

  /** The inner loop of the gradient: column `x`, cell by cell. Cells of
      other columns keep their values. */
  method GradientColumn(terrainGrid: array2<real>, distanceField: array2<real>,
                        gradientX: array2<real>, gradientY: array2<real>, ghost T: Grid, ghost D: Grid, x: int)
    requires gradientX != gradientY
    requires gradientX != terrainGrid && gradientX != distanceField && gradientY != terrainGrid && gradientY != distanceField
    requires terrainGrid.Length0 == distanceField.Length0 == gradientX.Length0 == gradientY.Length0
    requires terrainGrid.Length1 == distanceField.Length1 == gradientX.Length1 == gradientY.Length1
    requires Mirrors(terrainGrid, T) && Mirrors(distanceField, D)
    requires 0 <= x < distanceField.Length0
    requires forall y :: 0 <= y < distanceField.Length1 ==> gradientX[x, y] == 0.0 && gradientY[x, y] == 0.0
    modifies gradientX, gradientY
    ensures forall y :: 0 <= y < distanceField.Length1 ==>
      (gradientX[x, y], gradientY[x, y]) == GradientAt(T, D, distanceField.Length0, distanceField.Length1, x, y)
    ensures forall x', y' :: 0 <= x' < distanceField.Length0 && 0 <= y' < distanceField.Length1 && x' != x ==>
      gradientX[x', y'] == old(gradientX[x', y']) && gradientY[x', y'] == old(gradientY[x', y'])
  {
    var w, h := distanceField.Length0, distanceField.Length1;
    for y := 0 to h
      invariant forall y' :: 0 <= y' < y ==> (gradientX[x, y'], gradientY[x, y']) == GradientAt(T, D, w, h, x, y')
      invariant forall y' :: y <= y' < h ==> gradientX[x, y'] == 0.0 && gradientY[x, y'] == 0.0
      invariant forall x', y' :: 0 <= x' < w && 0 <= y' < h && x' != x ==>
        gradientX[x', y'] == old(gradientX[x', y']) && gradientY[x', y'] == old(gradientY[x', y'])
    {
      if terrainGrid[x, y] == 0.0 || distanceField[x, y] == 0.0 {
        continue;
      }
      var bestDirection := LowestNeighbour(terrainGrid, distanceField, T, D, x, y);
      if bestDirection.Some? {
        gradientX[x, y] := DIRECTION_VECTORS[bestDirection.value].0;
        gradientY[x, y] := DIRECTION_VECTORS[bestDirection.value].1;
      }
    }
  }
}
