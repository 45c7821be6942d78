/** The terrain editor's logic: mouse position to cell, drawing mode to
    cell code, the click and drag handlers, the instance-coordinate table and
    the scan for a goal marker. Canvas, pipelines and drawing are not modelled. */
module ObstacleGrid {
  import opened Wrappers
  import opened Terrain

  datatype Cell = Cell(x: int, y: int)

  /** A mouse event as the handlers see it: the position relative to the
      canvas's bounding rectangle, and that rectangle's size. */
  datatype MouseEvent = MouseEvent(mouseX: real, mouseY: real, width: real, height: real)

  /** One call of the update-cell callback. */
  datatype CellEdit = CellEdit(x: int, y: int, cellType: real)

  predicate InGrid(c: Cell, gridSize: nat)
  {
    0 <= c.x < gridSize && 0 <= c.y < gridSize
  }

  /** `getGridCoordinates`: column from the left, row counted from the
      bottom (the Y axis is flipped). A zero-sized rectangle yields infinities
      or NaN in the source, which fail the range test. */
  function GridCoordinates(p: MouseEvent, gridSize: nat): (r: Option<Cell>)
    ensures r.Some? ==> InGrid(r.value, gridSize)
    ensures r.Some? ==> (p.width != 0.0 && p.height != 0.0 &&
      r.value.x as real <= p.mouseX / p.width * gridSize as real < r.value.x as real + 1.0 &&
      (gridSize - 1 - r.value.y) as real <= p.mouseY / p.height * gridSize as real < (gridSize - r.value.y) as real)
    ensures (gridSize > 0 && p.width > 0.0 && p.height > 0.0 &&
      0.0 <= p.mouseX < p.width && 0.0 <= p.mouseY < p.height) ==> r.Some?
  {
    if p.width == 0.0 || p.height == 0.0 then None
    else
      var fx := p.mouseX / p.width * gridSize as real;
      var fy := p.mouseY / p.height * gridSize as real;
      var gridX := fx.Floor;
      var gridY := (gridSize - 1) - fy.Floor;
      InsideCanvas(p.mouseX, p.width, gridSize);
      InsideCanvas(p.mouseY, p.height, gridSize);
      if 0 <= gridX < gridSize && 0 <= gridY < gridSize then Some(Cell(gridX, gridY)) else None
  }

  /** A coordinate inside the canvas scales to a floor in [0, gridSize). */
  lemma InsideCanvas(m: real, extent: real, gridSize: nat)
    requires extent != 0.0
    ensures gridSize > 0 && extent > 0.0 && 0.0 <= m < extent ==> 0 <= (m / extent * gridSize as real).Floor < gridSize
  {
    if gridSize > 0 && extent > 0.0 && 0.0 <= m < extent {
      var f := m / extent;
      assert f * extent == m;
      var g := f * gridSize as real;
      assert 0.0 <= g < 1.0 * gridSize as real;
      assert g.Floor as real <= g < g.Floor as real + 1.0;
      assert g.Floor as real < gridSize as real;
      assert g.Floor as real > -1.0;
    }
  }

  /** The drawing-mode select's value, or 'traversable' when it is absent. */
  function DrawingMode(select: Option<string>): string
  {
    if select.Some? then select.value else "traversable"
  }

  /** The mode-to-cell-type switch shared by the click, mousedown and mousemove handlers. */
  function ModeCellType(mode: string): (cellType: real)
    ensures IsCellCode(cellType) && cellType != SOURCE
    ensures cellType == OBSTACLE <==> mode == "obstacle"
    ensures cellType == DIFFICULT <==> mode == "difficult"
  {
    match mode
    case "obstacle" => OBSTACLE
    case "difficult" => DIFFICULT
    case _ => TRAVERSABLE
  }

  /** An edit a handler may pass to the simulation: inside the grid, with a cell code. */
  predicate ValidEdit(e: CellEdit, gridSize: nat)
  {
    InGrid(Cell(e.x, e.y), gridSize) && IsCellCode(e.cellType)
  }

  predicate IsSourceAt(gridData: seq<real>, gridSize: nat, x: int, y: int)
  {
    0 <= x < gridSize && 0 <= y < gridSize && 0 <= y * gridSize + x < |gridData| &&
    gridData[y * gridSize + x] == SOURCE
  }

  /** Row-major order on cells: (y1, x1) comes before (y2, x2). */
  predicate RowMajorBefore(x1: int, y1: int, x2: int, y2: int)
  {
    y1 < y2 || (y1 == y2 && x1 < x2)
  }

  lemma CellIndexBound(gridSize: nat, x: nat, y: nat)
    requires x < gridSize && y < gridSize
    ensures y * gridSize + x < gridSize * gridSize
  {
    if y + 1 < gridSize {
      MulAtLeast(gridSize - (y + 1), gridSize);
    }
    assert gridSize * gridSize == (y + 1) * gridSize + (gridSize - (y + 1)) * gridSize;
  }

  lemma {:induction false} MulAtLeast(k: int, n: int)
    requires k >= 1 && n >= 0
    ensures k * n >= n
    decreases k
  {
    if k > 1 {
      MulAtLeast(k - 1, n);
      assert k * n == (k - 1) * n + n;
    }
  }

  lemma DivModUnique(a: int, n: int, q: int, r: int)
    requires n > 0 && 0 <= r < n && a == q * n + r
    ensures a / n == q && a % n == r
  {
    var q', r' := a / n, a % n;
    assert a == q' * n + r';
    if q' > q {
      MulAtLeast(q' - q, n);
      assert false;
    } else if q' < q {
      MulAtLeast(q - q', n);
      assert false;
    }
  }

  /** Entry `p` of the instance table for an N×N grid: pair p div 2 is
      (k mod N, k div N) with k = p div 2. */
  function InstanceEntry(p: nat, n: nat): int
  {
    if n == 0 then 0 else if p % 2 == 0 then (p / 2) % n else (p / 2) / n
  }

  /** The pairs (0, j), (1, j), ..., (m - 1, j), flattened. */
  function RowPairs(j: nat, m: nat): (r: seq<int>)
    ensures |r| == 2 * m
  {
    if m == 0 then [] else RowPairs(j, m - 1) + [m - 1, j]
  }

  lemma PairAppended(a: seq<int>, k: nat, prefix: seq<int>)
    requires k + 2 <= |a| && a[..k] == prefix
    ensures a[..k + 2] == prefix + [a[k], a[k + 1]]
  {
  }

  /** Number of cells in the first `rows` rows of an N-wide grid. */
  function RowStart(rows: nat, n: nat): nat
  {
    if rows == 0 then 0 else RowStart(rows - 1, n) + n
  }

  lemma {:induction false} RowStartIsProduct(rows: nat, n: nat)
    ensures RowStart(rows, n) == rows * n
  {
    if rows > 0 {
      RowStartIsProduct(rows - 1, n);
    }
  }

  lemma {:induction false} RowStartGrows(j: nat, k: nat, n: nat)
    requires j < k
    ensures RowStart(j, n) + n <= RowStart(k, n)
  {
    if j + 1 < k {
      RowStartGrows(j, k - 1, n);
    }
  }

  /** The instance table of the first `rows` rows of an N-wide grid. */
  function InstanceTable(n: nat, rows: nat): (r: seq<int>)
    ensures |r| == 2 * RowStart(rows, n)
  {
    if rows == 0 then [] else InstanceTable(n, rows - 1) + RowPairs(rows - 1, n)
  }

  lemma {:induction false} RowPairsAt(j: nat, m: nat, q: nat)
    requires q < 2 * m
    ensures RowPairs(j, m)[q] == if q % 2 == 0 then q / 2 else j
  {
    if q < 2 * (m - 1) {
      RowPairsAt(j, m - 1, q);
    }
  }

  /** Entry `p` of the row-by-row table is the closed form `InstanceEntry`. */
  lemma {:induction false} InstanceTableEntries(n: nat, rows: nat)
    ensures forall p :: 0 <= p < 2 * RowStart(rows, n) ==> InstanceTable(n, rows)[p] == InstanceEntry(p, n)
  {
    if rows > 0 {
      InstanceTableEntries(n, rows - 1);
      var t := InstanceTable(n, rows);
      RowStartIsProduct(rows - 1, n);
      forall p | 2 * RowStart(rows - 1, n) <= p < 2 * RowStart(rows, n)
        ensures t[p] == InstanceEntry(p, n)
      {
        var q := p - 2 * RowStart(rows - 1, n);
        RowPairsAt(rows - 1, n, q);
        InstanceEntryAt(n, q / 2, rows - 1);
        assert p == 2 * ((rows - 1) * n + q / 2) + q % 2;
      }
    }
  }

  lemma InstanceEntryAt(n: nat, i: nat, j: nat)
    requires i < n
    ensures InstanceEntry(2 * (j * n + i), n) == i
    ensures InstanceEntry(2 * (j * n + i) + 1, n) == j
  {
    var k := j * n + i;
    DivModUnique(k, n, j, i);
    DivModUnique(2 * k, 2, k, 0);
    DivModUnique(2 * k + 1, 2, k, 1);
  }

  class ObstacleGridRenderer {
    const gridSize: nat
    /** The goal marker the editor shows, if any. */
    var currentSourcePos: Option<Cell>
    var isDragging: bool
    /** Whether `setUpdateCellCallback` has been called. */
    var hasUpdateCellCallback: bool

    constructor(gridSize: nat)
      ensures this.gridSize == gridSize
      ensures currentSourcePos == None && !isDragging && !hasUpdateCellCallback
    {
      this.gridSize := gridSize;
      currentSourcePos := None;
      isDragging := false;
      hasUpdateCellCallback := false;
    }

    method SetUpdateCellCallback()
      modifies this`hasUpdateCellCallback
      ensures hasUpdateCellCallback
    {
      hasUpdateCellCallback := true;
    }

    /** `handleSourcePlacement`: move the marker, then ask the simulation to
        move the goal with the directive code 3.0. */
    method HandleSourcePlacement(gridX: int, gridY: int) returns (edit: Option<CellEdit>)
      modifies this`currentSourcePos
      ensures currentSourcePos == Some(Cell(gridX, gridY))
      ensures edit == if hasUpdateCellCallback then Some(CellEdit(gridX, gridY, SOURCE)) else None
    {
      currentSourcePos := Some(Cell(gridX, gridY));
      edit := None;
      if hasUpdateCellCallback {
        edit := Some(CellEdit(gridX, gridY, SOURCE));
      }
    }

    /** The click handler. Only here, in 'source' mode, is the code 3.0 emitted. */
    method OnClick(p: MouseEvent, select: Option<string>) returns (edit: Option<CellEdit>)
      modifies this`currentSourcePos
      ensures edit.Some? ==> ValidEdit(edit.value, gridSize)
      ensures edit.Some? <==> GridCoordinates(p, gridSize).Some? && hasUpdateCellCallback
      ensures edit.Some? ==> Cell(edit.value.x, edit.value.y) == GridCoordinates(p, gridSize).value
      ensures edit.Some? && DrawingMode(select) == "source" ==>
        edit.value.cellType == SOURCE && currentSourcePos == GridCoordinates(p, gridSize)
      ensures edit.Some? && DrawingMode(select) != "source" ==>
        edit.value.cellType == ModeCellType(DrawingMode(select))
      ensures !(edit.Some? && DrawingMode(select) == "source") ==> currentSourcePos == old(currentSourcePos)
    {
      var coords := GridCoordinates(p, gridSize);
      if coords.None? || !hasUpdateCellCallback {
        return None;
      }
      var mode := DrawingMode(select);
      if mode == "source" {
        edit := HandleSourcePlacement(coords.value.x, coords.value.y);
      } else {
        edit := Some(CellEdit(coords.value.x, coords.value.y, ModeCellType(mode)));
      }
    }

    /** The mousedown handler: start a drag and paint the cell under the
        mouse, in every mode but 'source'. */
    method OnMouseDown(p: MouseEvent, select: Option<string>) returns (edit: Option<CellEdit>)
      modifies this`isDragging
      ensures isDragging == (old(isDragging) || DrawingMode(select) != "source")
      ensures edit.Some? ==> ValidEdit(edit.value, gridSize) && edit.value.cellType != SOURCE
      ensures edit.Some? <==>
        DrawingMode(select) != "source" && GridCoordinates(p, gridSize).Some? && hasUpdateCellCallback
      ensures edit.Some? ==> edit.value == CellEdit(GridCoordinates(p, gridSize).value.x,
        GridCoordinates(p, gridSize).value.y, ModeCellType(DrawingMode(select)))
    {
      edit := None;
      var mode := DrawingMode(select);
      if mode != "source" {
        isDragging := true;
        var coords := GridCoordinates(p, gridSize);
        if coords.Some? && hasUpdateCellCallback {
          edit := Some(CellEdit(coords.value.x, coords.value.y, ModeCellType(mode)));
        }
      }
    }

    /** The mousemove handler: paint while dragging. Drag painting never
        emits the goal directive, even in 'source' mode. */
    method OnMouseMove(p: MouseEvent, select: Option<string>) returns (edit: Option<CellEdit>)
      ensures edit.Some? ==> ValidEdit(edit.value, gridSize) && edit.value.cellType != SOURCE
      ensures edit.Some? <==> isDragging && hasUpdateCellCallback && GridCoordinates(p, gridSize).Some?
      ensures edit.Some? ==> edit.value == CellEdit(GridCoordinates(p, gridSize).value.x,
        GridCoordinates(p, gridSize).value.y, ModeCellType(DrawingMode(select)))
    {
      if !isDragging || !hasUpdateCellCallback {
        return None;
      }
      var coords := GridCoordinates(p, gridSize);
      if coords.None? {
        return None;
      }
      var mode := DrawingMode(select);
      edit := Some(CellEdit(coords.value.x, coords.value.y, ModeCellType(mode)));
    }

    method OnMouseUp()
      modifies this`isDragging
      ensures !isDragging
    {
      isDragging := false;
    }

    /** `createGridInstanceData`: one (x, y) pair per cell, row by row,
        written through a running index. Pair k is (k mod N, k div N). */
    method CreateGridInstanceData() returns (instanceData: array<int>)
      ensures instanceData.Length == 2 * (gridSize * gridSize)
      ensures forall p :: 0 <= p < instanceData.Length ==> instanceData[p] == InstanceEntry(p, gridSize)
    {
      var n := gridSize;
      instanceData := new int[2 * (n * n)];
      RowStartIsProduct(n, n);
      var idx := 0;
      for j := 0 to n
        invariant idx == 2 * RowStart(j, n) <= instanceData.Length
        invariant instanceData[..idx] == InstanceTable(n, j)
      {
        RowStartGrows(j, n, n);
        idx := WriteRowPairs(instanceData, idx, j, n);
      }
      assert instanceData[..] == InstanceTable(n, n);
      InstanceTableEntries(n, n);
    }

    /** The inner loop of `createGridInstanceData`: the pairs of row `j`
        written from `idx` on; returns the advanced index. */
    static method WriteRowPairs(instanceData: array<int>, idx: nat, j: nat, n: nat) returns (next: nat)
      requires idx + 2 * n <= instanceData.Length
      modifies instanceData
      ensures next == idx + 2 * n
      ensures instanceData[..next] == old(instanceData[..idx]) + RowPairs(j, n)
    {
      ghost var prefix := instanceData[..idx];
      next := idx;
      for i := 0 to n
        invariant next == idx + 2 * i
        invariant instanceData[..next] == prefix + RowPairs(j, i)
      {
        instanceData[next] := i;
        next := next + 1;
        instanceData[next] := j;
        next := next + 1;
        PairAppended(instanceData[..], next - 2, prefix + RowPairs(j, i));
      }
    }

    /** The scan of `initializeSource`: the first cell in row-major order
        whose grid value is exactly 3.0, if any. Out-of-range reads yield
        `undefined` in the source, which is never 3.0. */
    method FindSource(gridData: array<real>) returns (pos: Option<Cell>)
      ensures pos.Some? ==> InGrid(pos.value, gridSize) && IsSourceAt(gridData[..], gridSize, pos.value.x, pos.value.y)
      ensures pos.Some? ==> forall x, y ::
        (0 <= x < gridSize && 0 <= y < gridSize && RowMajorBefore(x, y, pos.value.x, pos.value.y)) ==>
        !IsSourceAt(gridData[..], gridSize, x, y)
      ensures pos.None? ==> forall x, y :: !IsSourceAt(gridData[..], gridSize, x, y)
    {
      for y := 0 to gridSize
        invariant forall x', y' :: 0 <= y' < y ==> !IsSourceAt(gridData[..], gridSize, x', y')
      {
        for x := 0 to gridSize
          invariant forall x', y' :: (0 <= y' < y || (y' == y && x' < x)) ==> !IsSourceAt(gridData[..], gridSize, x', y')
        {
          var index := y * gridSize + x;
          if index < gridData.Length && gridData[index] == SOURCE {
            return Some(Cell(x, y));
          }
        }
      }
      return None;
    }

    /** `initializeSource(gridData)`: the marker goes to the first goal
        cell in row-major order, or is cleared when there is none. */
    method InitializeSource(gridData: array<real>)
      modifies this`currentSourcePos
      ensures currentSourcePos.Some? ==>
        InGrid(currentSourcePos.value, gridSize) &&
        IsSourceAt(gridData[..], gridSize, currentSourcePos.value.x, currentSourcePos.value.y)
      ensures currentSourcePos.Some? ==> forall x, y ::
        (0 <= x < gridSize && 0 <= y < gridSize && RowMajorBefore(x, y, currentSourcePos.value.x, currentSourcePos.value.y)) ==>
        !IsSourceAt(gridData[..], gridSize, x, y)
      ensures currentSourcePos.None? ==> forall x, y :: !IsSourceAt(gridData[..], gridSize, x, y)
    {
      currentSourcePos := FindSource(gridData);
    }
  }
}
