/** The simulation driver: the grid, the two distance buffers and the
    flowfield buffer it keeps, the run loop that alternates propagation
    dispatches between the buffers, and the editing operations the user
    interface calls. GPU buffers are held as sequences the methods
    reassign; the compute kernels are the per-cell rules in `kernels`. */
module Simulation {
  import opened Wrappers
  import opened Terrain
  import opened SimulationRules
  import Bindings
  import TerrainCsv
  import ObstacleGrid

  /** What the user interface can do while a run waits between two steps. */
  datatype UiEvent =
    | StopRequest
    | Edit(x: int, y: int, cellType: real)
    | Relaxation(enabled: bool)
    | Speed(delay: int)
    | ResetRequest
      /** The maze button: `csvText` is the fetched file, None when the
          fetch fails. */
    | MazeRequest(csvText: Option<string>)

  /** Edits come from the grid editor, which only emits cell codes; the
      maze file is 32×32, the size the page creates the simulation with. */
  predicate WellFormedEvent(e: UiEvent, gridSize: nat)
  {
    (e.Edit? ==> IsCellCode(e.cellType)) &&
    (e.MazeRequest? ==> gridSize == TerrainCsv.SIDE)
  }

  /** No event arrives during the whole run. */
  predicate Quiet(events: seq<seq<UiEvent>>)
  {
    forall i :: 0 <= i < |events| ==> events[i] == []
  }

  class PathfindingSimulation {
    const gridSize: nat
    const numberOfCells: nat
    const maxIterations: nat := MAX_ITERATIONS
    const kernels: Kernels

    var isRunning: bool
    var currentIteration: nat
    /** Selects the propagation bind group: true reads Ping and writes Pong. */
    var usesPingPong: bool
    var useRelaxation: bool
    var gridData: array<real>
    var goalX: int
    var goalY: int
    var simulationSpeed: int
    var maxDistanceValue: real
    var hasConverged: bool
    var lastIterationData: Option<seq<real>>
    var distancePing: seq<real>
    var distancePong: seq<real>
    var flowfield: seq<real>

    predicate Valid()
      reads this`gridData, this`distancePing, this`distancePong, this`flowfield, this`simulationSpeed,
            this`maxDistanceValue, this`lastIterationData
    {
      gridSize >= 1 && numberOfCells == gridSize * gridSize &&
      gridData.Length == numberOfCells &&
      |distancePing| == numberOfCells && |distancePong| == numberOfCells &&
      |flowfield| == 2 * numberOfCells &&
      MIN_SPEED <= simulationSpeed <= MAX_SPEED &&
      maxDistanceValue >= 5.0 &&
      (lastIterationData.Some? ==> |lastIterationData.value| == numberOfCells)
    }

    /** The distance buffer bound in a slot. */
    function Buffer(s: Bindings.Slot): seq<real>
      reads this`distancePing, this`distancePong
    {
      if s == Bindings.Ping then distancePing else distancePong
    }

    /** The two distance buffers by role: the one the last dispatch wrote,
        and the one the next dispatch overwrites. The latter is also the
        one the observers read, as written: the last dispatch's input. */
    function Buffers(): (f: Field)
      reads this`usesPingPong, this`distancePing, this`distancePong
      ensures f.latest == Buffer(Bindings.SourceSlot(usesPingPong))
      ensures f.older == Buffer(Bindings.TargetSlot(usesPingPong))
      ensures f.older == Buffer(Bindings.ObservedSlot(usesPingPong))
    {
      Field(Buffer(Bindings.FreshSlot(usesPingPong)), Buffer(Bindings.TargetSlot(usesPingPong)))
    }

    /** Both buffers seeded at the current goal, as a run starts. */
    function StartField(): Field
      reads this`goalX, this`goalY
    {
      var seeded := Seeded(numberOfCells, goalY * gridSize + goalX);
      Field(seeded, seeded)
    }

    /** The constructor followed by `initialize`: an all-traversable grid,
        the goal at the centre, both buffers seeded there. */
    constructor (gridSize: nat, kernels: Kernels)
      requires gridSize >= 1
      ensures Valid() && fresh(gridData)
      ensures this.gridSize == gridSize && this.kernels == kernels
      ensures gridData[..] == Filled(gridSize * gridSize, TRAVERSABLE)
      ensures goalX == gridSize / 2 && goalY == gridSize / 2
      ensures distancePing == distancePong == Seeded(numberOfCells, goalY * gridSize + goalX)
      ensures flowfield == Filled(2 * numberOfCells, 0.0)
      ensures !isRunning && currentIteration == 0 && usesPingPong && useRelaxation
      ensures simulationSpeed == INITIAL_SPEED && maxDistanceValue == INITIAL_MAX_DISTANCE
      ensures !hasConverged && lastIterationData == None
    {
      this.gridSize := gridSize;
      numberOfCells := gridSize * gridSize;
      this.kernels := kernels;
      isRunning := false;
      currentIteration := 0;
      usesPingPong := true;
      useRelaxation := true;
      gridData := new real[gridSize * gridSize](_ => TRAVERSABLE);
      goalX := gridSize / 2;
      goalY := gridSize / 2;
      simulationSpeed := INITIAL_SPEED;
      maxDistanceValue := INITIAL_MAX_DISTANCE;
      hasConverged := false;
      lastIterationData := None;
      distancePing := Filled(gridSize * gridSize, 0.0);
      distancePong := Filled(gridSize * gridSize, 0.0);
      flowfield := Filled(2 * (gridSize * gridSize), 0.0);
      new;
      SetGoal(goalX, goalY);
    }

    /** `setRelaxation`: switch pipelines and restart range and convergence
        tracking; the buffers are kept. */
    method SetRelaxation(enabled: bool)
      requires Valid()
      modifies this`useRelaxation, this`maxDistanceValue, this`lastIterationData, this`hasConverged
      ensures Valid()
      ensures useRelaxation == enabled && maxDistanceValue == BaseMax(gridSize)
      ensures lastIterationData == None && !hasConverged
    {
      useRelaxation := enabled;
      maxDistanceValue := BaseMax(gridSize);
      lastIterationData := None;
      hasConverged := false;
    }

    /** `setGoal`: move the goal and seed both buffers with 1.0 at its index
        (an index outside the buffers seeds nothing). */
    method SetGoal(x: int, y: int)
      requires |distancePing| == numberOfCells && |distancePong| == numberOfCells
      modifies this`goalX, this`goalY, this`hasConverged, this`lastIterationData,
               this`distancePing, this`distancePong, this`currentIteration, this`usesPingPong
      ensures goalX == x && goalY == y
      ensures distancePing == distancePong == Seeded(numberOfCells, y * gridSize + x)
      ensures Buffers() == StartField()
      ensures !hasConverged && lastIterationData == None
      ensures currentIteration == 0 && usesPingPong
    {
      goalX, goalY := x, y;
      hasConverged := false;
      lastIterationData := None;
      var distanceData := Seeded(numberOfCells, y * gridSize + x);
      distancePing := distanceData;
      distancePong := distanceData;
      currentIteration := 0;
      usesPingPong := true;
    }

    /** `resetDistanceField`: reseed at the current goal, clear the
        flowfield and widen the range for edited terrain. */
    method ResetDistanceField()
      requires Valid()
      modifies this`distancePing, this`distancePong, this`currentIteration, this`usesPingPong,
               this`maxDistanceValue, this`flowfield
      ensures Valid()
      ensures distancePing == distancePong == Seeded(numberOfCells, goalY * gridSize + goalX)
      ensures Buffers() == StartField()
      ensures currentIteration == 0 && usesPingPong
      ensures maxDistanceValue == TerrainEditMax(gridSize)
      ensures flowfield == Filled(2 * numberOfCells, 0.0)
    {
      var distanceData := Seeded(numberOfCells, goalY * gridSize + goalX);
      distancePing := distanceData;
      distancePong := distanceData;
      currentIteration := 0;
      usesPingPong := true;
      maxDistanceValue := TerrainEditMax(gridSize);
      flowfield := Filled(2 * numberOfCells, 0.0);
    }

    /** `updateCell`: a SOURCE code moves the goal; any other code is
        stored (as a float32) at the cell's index when that index is inside
        the grid buffer, and the distance field restarts. */
    method UpdateCell(x: int, y: int, cellType: real)
      requires Valid() && IsCellCode(cellType)
      modifies this`goalX, this`goalY, this`hasConverged, this`lastIterationData,
               this`distancePing, this`distancePong, this`currentIteration, this`usesPingPong,
               this`maxDistanceValue, this`flowfield, gridData
      ensures Valid()
      ensures !hasConverged && lastIterationData == None
      ensures currentIteration == 0 && usesPingPong && Buffers() == StartField()
      ensures cellType == SOURCE ==>
        goalX == x && goalY == y && gridData[..] == old(gridData[..]) &&
        maxDistanceValue == old(maxDistanceValue) && flowfield == old(flowfield)
      ensures cellType != SOURCE ==>
        goalX == old(goalX) && goalY == old(goalY) &&
        maxDistanceValue == TerrainEditMax(gridSize) && flowfield == Filled(2 * numberOfCells, 0.0)
      ensures cellType != SOURCE && 0 <= y * gridSize + x < numberOfCells ==>
        gridData[..] == old(gridData[..])[y * gridSize + x := StoredFloat32(cellType)]
      ensures cellType != SOURCE && !(0 <= y * gridSize + x < numberOfCells) ==>
        gridData[..] == old(gridData[..])
    {
      var index := y * gridSize + x;
      if cellType == SOURCE {
        SetGoal(x, y);
        return;
      }
      if 0 <= index < gridData.Length {
        gridData[index] := StoredFloat32(cellType);
      }
      hasConverged := false;
      lastIterationData := None;
      ResetDistanceField();
    }

    /** `stop`. */
    method Stop()
      modifies this`isRunning
      ensures !isRunning
    {
      isRunning := false;
    }

    /** `resetGrid`: stop, make every cell traversable, goal to the centre,
        range back to 10, flowfield cleared. */
    method ResetGrid()
      requires Valid()
      modifies this`isRunning, this`goalX, this`goalY, this`hasConverged, this`lastIterationData,
               this`distancePing, this`distancePong, this`currentIteration, this`usesPingPong,
               this`maxDistanceValue, this`flowfield, gridData
      ensures Valid() && !isRunning
      ensures gridData[..] == Filled(numberOfCells, TRAVERSABLE)
      ensures goalX == gridSize / 2 && goalY == gridSize / 2
      ensures Buffers() == StartField() && currentIteration == 0 && usesPingPong
      ensures !hasConverged && lastIterationData == None
      ensures maxDistanceValue == 10.0 && flowfield == Filled(2 * numberOfCells, 0.0)
    {
      Stop();
      forall i | 0 <= i < gridData.Length {
        gridData[i] := TRAVERSABLE;
      }
      var centerX := gridSize / 2;
      var centerY := gridSize / 2;
      SetGoal(centerX, centerY);
      maxDistanceValue := 10.0;
      flowfield := Filled(2 * numberOfCells, 0.0);
    }

    /** `createFallbackMaze`: border and lattice walls, a diagonal pattern
        of difficult cells, an open centre, and the goal there. */
    method CreateFallbackMaze()
      requires Valid()
      modifies this`goalX, this`goalY, this`hasConverged, this`lastIterationData,
               this`distancePing, this`distancePong, this`currentIteration, this`usesPingPong, gridData
      ensures Valid()
      ensures gridData[..] == FallbackMaze(gridSize)
      ensures goalX == gridSize / 2 && goalY == gridSize / 2
      ensures Buffers() == StartField() && currentIteration == 0 && usesPingPong
      ensures !hasConverged && lastIterationData == None
    {
      forall i | 0 <= i < gridData.Length {
        gridData[i] := TRAVERSABLE;
      }
      MazeRows();
      var centerX := gridSize / 2;
      var centerY := gridSize / 2;
      CellIndex(gridSize, centerX, centerY);
      gridData[centerY * gridSize + centerX] := TRAVERSABLE;
      assert gridData[..] == FallbackMaze(gridSize);
      SetGoal(centerX, centerY);
    }

    /** The outer loop of the fallback maze, over an all-traversable grid. */
    method MazeRows()
      requires Valid()
      requires forall i :: 0 <= i < gridData.Length ==> gridData[i] == TRAVERSABLE
      modifies gridData
      ensures gridData[..] == FallbackRows(gridSize, gridSize)
    {
      ObstacleGrid.RowStartIsProduct(gridSize, gridSize);
      for y := 0 to gridSize
        invariant ObstacleGrid.RowStart(y, gridSize) <= gridData.Length
        invariant gridData[..ObstacleGrid.RowStart(y, gridSize)] == FallbackRows(gridSize, y)
        invariant forall i :: ObstacleGrid.RowStart(y, gridSize) <= i < gridData.Length ==> gridData[i] == TRAVERSABLE
      {
        ObstacleGrid.RowStartGrows(y, gridSize, gridSize);
        ObstacleGrid.RowStartIsProduct(y, gridSize);
        MazeRow(y, ObstacleGrid.RowStart(y, gridSize));
      }
      assert gridData[..] == gridData[..ObstacleGrid.RowStart(gridSize, gridSize)];
    }

    /** The inner loop of the fallback maze: row `y`, which starts at
        `start` = y·N in the grid buffer. */
    method MazeRow(y: nat, ghost start: nat)
      requires Valid() && y < gridSize
      requires start == y * gridSize && start + gridSize <= gridData.Length
      requires forall i :: start <= i < gridData.Length ==> gridData[i] == TRAVERSABLE
      modifies gridData
      ensures gridData[..start + gridSize] == old(gridData[..start]) + FallbackRow(gridSize, y)
      ensures forall i :: start + gridSize <= i < gridData.Length ==> gridData[i] == TRAVERSABLE
    {
      for x := 0 to gridSize
        invariant gridData[..start + x] == old(gridData[..start]) + FallbackRow(gridSize, y)[..x]
        invariant forall i :: start + x <= i < gridData.Length ==> gridData[i] == TRAVERSABLE
      {
        var index := y * gridSize + x;
        if x == 0 || x == gridSize - 1 || y == 0 || y == gridSize - 1 {
          gridData[index] := OBSTACLE;
        } else if (x % 4 == 0 && y % 2 == 0) || (y % 4 == 0 && x % 2 == 0) {
          gridData[index] := OBSTACLE;
        } else if (x + y) % 7 == 0 {
          gridData[index] := StoredFloat32(DIFFICULT);
        }
        assert gridData[index] == FallbackRow(gridSize, y)[x];
        PrefixAppended(FallbackRow(gridSize, y), x, FallbackRow(gridSize, y)[..x]);
        PrefixAppended(gridData[..], index, old(gridData[..start]) + FallbackRow(gridSize, y)[..x]);
      }
    }

    /** `setSimulationSpeed`. */
    method SetSimulationSpeed(speed: int)
      requires Valid()
      modifies this`simulationSpeed
      ensures Valid() && simulationSpeed == ClampSpeed(speed)
    {
      simulationSpeed := if 10 > (if 1000 < speed then 1000 else speed) then 10
                         else if 1000 < speed then 1000 else speed;
    }

    /** `loadMaze`: `csvText` is the fetched file (None when the fetch
        fails) and `parse` the number parser followed by the float32 store.
        A loaded grid gets the goal the ring search finds (the centre when
        it finds none); a failed load builds the fallback maze instead. */
    method LoadMaze(csvText: Option<string>, parse: string -> real)
      requires Valid() && gridSize == TerrainCsv.SIDE
      modifies this`gridData, this`goalX, this`goalY, this`hasConverged, this`lastIterationData,
               this`distancePing, this`distancePong, this`currentIteration, this`usesPingPong, gridData
      ensures Valid()
      ensures Buffers() == StartField() && currentIteration == 0 && usesPingPong
      ensures !hasConverged && lastIterationData == None
      ensures csvText.None? || TerrainCsv.LoadedArray(csvText.value, parse).Failure? ==>
        gridData == old(gridData) && gridData[..] == FallbackMaze(gridSize) &&
        goalX == gridSize / 2 && goalY == gridSize / 2
      ensures csvText.Some? && TerrainCsv.LoadedArray(csvText.value, parse).Success? ==>
        fresh(gridData) && gridData[..] == TerrainCsv.LoadedArray(csvText.value, parse).value &&
        (IsNearestOpen(gridData[..], gridSize, goalX, goalY) ||
         (goalX == gridSize / 2 && goalY == gridSize / 2 && NoOpenInSearch(gridData[..], gridSize)))
    {
      if csvText.None? {
        CreateFallbackMaze();
        return;
      }
      var loaded := TerrainCsv.LoadCsvToFloat32Array(csvText.value, parse);
      if loaded.Failure? {
        CreateFallbackMaze();
        return;
      }
      InstallGrid(loaded.value);
    }

    /** The success path of `loadMaze`: the loaded cells become the grid
        and the goal moves to the cell the ring search finds. */
    method InstallGrid(cells: seq<real>)
      requires Valid() && |cells| == numberOfCells
      modifies this`gridData, this`goalX, this`goalY, this`hasConverged, this`lastIterationData,
               this`distancePing, this`distancePong, this`currentIteration, this`usesPingPong
      ensures Valid()
      ensures Buffers() == StartField() && currentIteration == 0 && usesPingPong
      ensures !hasConverged && lastIterationData == None
      ensures fresh(gridData) && gridData[..] == cells
      ensures IsNearestOpen(cells, gridSize, goalX, goalY) ||
              (goalX == gridSize / 2 && goalY == gridSize / 2 && NoOpenInSearch(cells, gridSize))
    {
      gridData := new real[|cells|](i requires 0 <= i < |cells| => cells[i]);
      var found, goalX, goalY := NearestOpenCell(gridData, gridSize);
      SetGoal(goalX, goalY);
    }

    // -------------------------------------------------------------- a run

    /** `runBFSIteration`: one propagation dispatch with the selected
        pipeline, reading the latest buffer and overwriting the older one;
        then the roles swap. */
    method RunBfsIteration()
      requires Valid()
      modifies this`distancePing, this`distancePong, this`usesPingPong, this`currentIteration
      ensures Valid()
      ensures usesPingPong == !old(usesPingPong) && currentIteration == old(currentIteration) + 1
      ensures Buffers() == Field(Propagate(kernels, useRelaxation, gridData[..], old(Buffers()).latest,
                                           old(Buffers()).older), old(Buffers()).latest)
    {
      var source := Buffer(Bindings.SourceSlot(usesPingPong));
      var written := Propagate(kernels, useRelaxation, gridData[..], source, Buffer(Bindings.TargetSlot(usesPingPong)));
      if Bindings.TargetSlot(usesPingPong) == Bindings.Ping {
        distancePing := written;
      } else {
        distancePong := written;
      }
      usesPingPong := !usesPingPong;
      currentIteration := currentIteration + 1;
    }

    /** `generateFlowfield`, through `getGradientBindGroup`: it reads the
        observed slot, which after the flip is the buffer the last dispatch
        read rather than the one it wrote. */
    method GenerateFlowfield()
      requires Valid()
      modifies this`flowfield
      ensures Valid()
      ensures flowfield == Gradient(kernels, gridData[..], Buffers().older, old(flowfield))
    {
      var distance := Buffer(Bindings.ObservedSlot(usesPingPong));
      flowfield := Gradient(kernels, gridData[..], distance, flowfield);
    }

    /** `checkConvergence`: compare the observed buffer with the reading
        kept from the previous check, then keep this one. */
    method CheckConvergence()
      requires Valid()
      modifies this`hasConverged, this`lastIterationData
      ensures Valid()
      ensures lastIterationData == Some(Buffers().older)
      ensures hasConverged == (old(hasConverged) ||
        (old(lastIterationData).Some? && Settled(Buffers().older, old(lastIterationData).value)))
    {
      var dataCopy := Buffer(Bindings.ObservedSlot(usesPingPong));
      if lastIterationData.Some? {
        var changed := HasChanged(dataCopy, lastIterationData.value, numberOfCells);
        if !changed {
          hasConverged := true;
        }
      }
      lastIterationData := Some(dataCopy);
    }

    /** `updateMaxDistance`: statistics of the observed buffer feed the
        range estimator. */
    method UpdateMaxDistance()
      requires Valid()
      modifies this`maxDistanceValue
      ensures Valid()
      ensures var d := Buffers().older;
        maxDistanceValue == NextEstimate(CountPositive(d, |d|), SumPositive(d, |d|), MaxPositive(d, |d|),
                                         old(maxDistanceValue))
    {
      var distanceData := Buffer(Bindings.ObservedSlot(usesPingPong));
      var nonZeroCount, total, maxDist := PositiveStats(distanceData);
      PositiveStatsMeaning(distanceData, |distanceData|);
      maxDistanceValue := NextEstimate(nonZeroCount, total, maxDist, maxDistanceValue);
    }

    /** The user-interface calls that arrive while a run waits; `parse` is
        the number parser a maze load uses. Only a maze load replaces the
        grid array. */
    method ApplyEvents(events: seq<UiEvent>, parse: string -> real)
      requires Valid() && forall j :: 0 <= j < |events| ==> WellFormedEvent(events[j], gridSize)
      modifies this, gridData
      ensures Valid() && (gridData == old(gridData) || fresh(gridData))
      ensures (forall j :: 0 <= j < |events| ==> !events[j].MazeRequest?) ==> gridData == old(gridData)
      ensures events == [] ==> unchanged(this) && unchanged(gridData)
    {
      for j := 0 to |events|
        invariant Valid() && (gridData == old(gridData) || fresh(gridData))
        invariant (forall j' :: 0 <= j' < j ==> !events[j'].MazeRequest?) ==> gridData == old(gridData)
        invariant j == 0 ==> unchanged(this) && unchanged(gridData)
      {
        match events[j]
        case StopRequest => Stop();
        case Edit(x, y, cellType) => UpdateCell(x, y, cellType);
        case Relaxation(enabled) => SetRelaxation(enabled);
        case Speed(delay) => SetSimulationSpeed(delay);
        case ResetRequest => ResetGrid();
        case MazeRequest(csvText) => LoadMaze(csvText, parse);
      }
    }

    /** The state of a run without interference after `steps` steps, from
        the start buffers `start` and the cleared flowfield `flow0` on the
        fixed grid `grid`. */
    ghost predicate Progress(grid: seq<real>, relaxation: bool, start: Field, flow0: seq<real>, steps: nat)
      reads this`useRelaxation, this`gridData, gridData, this`currentIteration,
            this`usesPingPong, this`distancePing, this`distancePong, this`flowfield
      requires |start.latest| == |start.older|
    {
      useRelaxation == relaxation && gridData[..] == grid &&
      currentIteration == steps && usesPingPong == (steps % 2 == 0) &&
      Buffers() == Iterate(kernels, relaxation, grid, start, steps) &&
      flowfield == FlowAfter(kernels, relaxation, grid, start, flow0, steps)
    }

    /** The convergence tracking of such a run: no check so far found the
        buffer settled, and the kept reading is the one taken after step
        `lastCheck`, the latest check point. */
    ghost predicate Checks(grid: seq<real>, relaxation: bool, start: Field, steps: nat, lastCheck: nat)
      reads this`hasConverged, this`lastIterationData
      requires |start.latest| == |start.older|
    {
      !hasConverged &&
      (steps == 0 ==> lastIterationData == None) &&
      (steps > 0 ==> 1 <= lastCheck <= steps < lastCheck + 3 && IsCheckPoint(lastCheck) &&
                     lastIterationData == Some(Iterate(kernels, relaxation, grid, start, lastCheck).older)) &&
      forall s :: 1 <= s <= steps ==> !ConvergedAt(kernels, relaxation, grid, start, s)
    }

    /** Steps 1 and 2 of a pass of the run loop: a dispatch and the
        gradient pass. While `tracking`, the run advances by one round. */
    method Advance(ghost tracking: bool, ghost grid: seq<real>, ghost relaxation: bool, ghost start: Field,
                   ghost flow0: seq<real>, ghost n: nat)
      requires Valid() && |start.latest| == |start.older|
      requires tracking ==> Progress(grid, relaxation, start, flow0, n)
      modifies this`distancePing, this`distancePong, this`usesPingPong, this`currentIteration, this`flowfield
      ensures Valid()
      ensures tracking ==> Progress(grid, relaxation, start, flow0, n + 1)
    {
      RunBfsIteration();
      GenerateFlowfield();
      if tracking {
        RoundStep(kernels, relaxation, grid, start, flow0, n);
        ParityStep(n);
      }
    }

    /** Step 4 of pass `i` of the run loop: on every third pass, the
        convergence check and the range update. While `tracking`, the run
        has converged exactly when `ConvergedAt` holds after this step. */
    method Observe(i: nat, ghost tracking: bool, ghost grid: seq<real>, ghost relaxation: bool, ghost start: Field,
                   ghost lastCheck: nat) returns (ghost nextCheck: nat)
      requires Valid() && |start.latest| == |start.older|
      requires tracking ==> Buffers().older == Iterate(kernels, relaxation, grid, start, i + 1).older
      requires tracking ==> Checks(grid, relaxation, start, i, lastCheck)
      modifies this`hasConverged, this`lastIterationData, this`maxDistanceValue
      ensures Valid()
      ensures tracking ==> (hasConverged <==> ConvergedAt(kernels, relaxation, grid, start, i + 1))
      ensures tracking && !hasConverged ==> Checks(grid, relaxation, start, i + 1, nextCheck)
    {
      nextCheck := lastCheck;
      if i % 3 == 0 {
        Inspect(i, tracking, grid, relaxation, start, lastCheck);
        nextCheck := i + 1;
      } else if tracking {
        CheckPointGap(kernels, relaxation, grid, start, i, lastCheck);
      }
    }

    /** Step 4 on a check pass `i`: the convergence check and the range
        update. */
    method Inspect(i: nat, ghost tracking: bool, ghost grid: seq<real>, ghost relaxation: bool, ghost start: Field,
                   ghost lastCheck: nat)
      requires Valid() && |start.latest| == |start.older| && i % 3 == 0
      requires tracking ==> Buffers().older == Iterate(kernels, relaxation, grid, start, i + 1).older
      requires tracking ==> Checks(grid, relaxation, start, i, lastCheck)
      modifies this`hasConverged, this`lastIterationData, this`maxDistanceValue
      ensures Valid()
      ensures tracking ==> (hasConverged <==> ConvergedAt(kernels, relaxation, grid, start, i + 1))
      ensures tracking && !hasConverged ==> Checks(grid, relaxation, start, i + 1, i + 1)
    {
      if tracking {
        CheckPointStep(kernels, relaxation, grid, start, i, lastCheck);
      }
      CheckConvergence();
      UpdateMaxDistance();
    }

    /** What a run without interference has done after `steps` steps:
        its progress, and either the convergence tracking of a run still
        going or the first check that found the buffer settled. */
    ghost predicate Tracked(grid: seq<real>, relaxation: bool, start: Field, flow0: seq<real>, steps: nat,
                            lastCheck: nat)
      reads this`useRelaxation, this`gridData, gridData, this`currentIteration, this`usesPingPong,
            this`distancePing, this`distancePong, this`flowfield, this`hasConverged, this`lastIterationData
      requires |start.latest| == |start.older|
    {
      Progress(grid, relaxation, start, flow0, steps) &&
      (!hasConverged ==> Checks(grid, relaxation, start, steps, lastCheck)) &&
      (hasConverged ==>
        ConvergedAt(kernels, relaxation, grid, start, steps) &&
        forall s :: 1 <= s < steps ==> !ConvergedAt(kernels, relaxation, grid, start, s))
    }

    /** Steps 1, 2 and 4 of pass `i` of the run loop: the dispatch, the
        gradient pass and, on every third pass, the check. */
    method Round(i: nat, ghost quiet: bool, ghost grid: seq<real>, ghost relaxation: bool, ghost start: Field,
                 ghost flow0: seq<real>, ghost lastCheck: nat) returns (ghost nextCheck: nat)
      requires Valid() && !hasConverged && |start.latest| == |start.older|
      requires quiet ==> Tracked(grid, relaxation, start, flow0, i, lastCheck)
      modifies this`distancePing, this`distancePong, this`usesPingPong, this`currentIteration, this`flowfield,
               this`hasConverged, this`lastIterationData, this`maxDistanceValue
      ensures Valid()
      ensures quiet ==> Tracked(grid, relaxation, start, flow0, i + 1, nextCheck)
    {
      Advance(quiet, grid, relaxation, start, flow0, i);
      nextCheck := Observe(i, quiet, grid, relaxation, start, lastCheck);
    }

    /** Pass `i` of the run loop: the dispatch, the gradient pass, the
        check on every third pass, then, unless the run has converged, the
        calls `pending` the user interface makes while the pass waits. */
    method Pass(i: nat, pending: seq<UiEvent>, parse: string -> real, ghost quiet: bool, ghost grid: seq<real>, ghost relaxation: bool,
                ghost start: Field, ghost flow0: seq<real>, ghost lastCheck: nat, ghost gx: int, ghost gy: int)
      returns (ghost nextCheck: nat)
      requires Valid() && !hasConverged && |start.latest| == |start.older|
      requires forall j :: 0 <= j < |pending| ==> WellFormedEvent(pending[j], gridSize)
      requires quiet ==> pending == []
      requires quiet ==> isRunning && goalX == gx && goalY == gy && Tracked(grid, relaxation, start, flow0, i, lastCheck)
      modifies this, gridData
      ensures Valid() && (gridData == old(gridData) || fresh(gridData))
      ensures quiet ==> gridData == old(gridData)
      ensures quiet ==> isRunning && goalX == gx && goalY == gy && Tracked(grid, relaxation, start, flow0, i + 1, nextCheck)
    {
      nextCheck := Round(i, quiet, grid, relaxation, start, flow0, lastCheck);
      if !hasConverged && pending != [] {
        ApplyEvents(pending, parse);
      }
    }

    /** The loop of `runSimulation`, from the state `StartRun` leaves:
        steps 1, 2 and 4 of each pass, then the calls the user interface
        makes while the pass waits. The loop ends when the step budget is
        spent, the run is stopped, or a check finds the buffer settled. */
    method RunLoop(events: seq<seq<UiEvent>>, parse: string -> real, ghost grid: seq<real>, ghost relaxation: bool, ghost start: Field,
                   ghost flow0: seq<real>) returns (steps: nat)
      requires Valid() && isRunning && !hasConverged && |start.latest| == |start.older|
      requires forall i, j :: 0 <= i < |events| && 0 <= j < |events[i]| ==> WellFormedEvent(events[i][j], gridSize)
      requires Quiet(events) ==> Tracked(grid, relaxation, start, flow0, 0, 0)
      modifies this, gridData
      ensures Valid() && (gridData == old(gridData) || fresh(gridData))
      ensures 1 <= steps <= maxIterations
      ensures Quiet(events) ==> gridData == old(gridData)
      ensures Quiet(events) ==>
        goalX == old(goalX) && goalY == old(goalY) && Progress(grid, relaxation, start, flow0, steps)
      ensures Quiet(events) ==>
        StopsAt(kernels, relaxation, grid, start, steps, maxIterations) &&
        (hasConverged <==> ConvergedAt(kernels, relaxation, grid, start, steps))
    {
      ghost var gx, gy := goalX, goalY;
      ghost var quiet := Quiet(events);
      ghost var lastCheck: nat := 0;
      steps := 0;
      while steps < maxIterations && isRunning && !hasConverged
        invariant Valid() && (gridData == old(gridData) || fresh(gridData))
        invariant quiet ==> gridData == old(gridData)
        invariant steps <= maxIterations
        invariant steps == 0 ==> isRunning && !hasConverged
        invariant quiet ==>
          isRunning && goalX == gx && goalY == gy && Tracked(grid, relaxation, start, flow0, steps, lastCheck)
        decreases maxIterations - steps
      {
        var pending := if steps < |events| then events[steps] else [];
        lastCheck := Pass(steps, pending, parse, quiet, grid, relaxation, start, flow0, lastCheck, gx, gy);
        steps := steps + 1;
      }
    }

    /** `runSimulation`. `events[i]` are the calls the user interface makes
        while the run waits after its (i+1)-th step. Returns the number of
        steps taken. Without interference, the buffers and the flowfield
        are those of `steps` rounds from the seeded start, the run stops
        early exactly at the first check that finds the buffer settled, and
        otherwise it takes the full 512 steps. */
    method RunSimulation(events: seq<seq<UiEvent>>, parse: string -> real) returns (steps: nat)
      requires Valid()
      requires forall i, j :: 0 <= i < |events| && 0 <= j < |events[i]| ==> WellFormedEvent(events[i][j], gridSize)
      modifies this, gridData
      ensures Valid() && (gridData == old(gridData) || fresh(gridData)) && !isRunning
      ensures Quiet(events) ==> gridData == old(gridData)
      ensures 1 <= steps <= maxIterations
      ensures Quiet(events) ==>
        goalX == old(goalX) && goalY == old(goalY) &&
        Progress(old(gridData[..]), old(useRelaxation), old(StartField()), Filled(2 * numberOfCells, 0.0), steps)
      ensures Quiet(events) ==>
        StopsAt(kernels, old(useRelaxation), old(gridData[..]), old(StartField()), steps, maxIterations) &&
        (hasConverged <==> ConvergedAt(kernels, old(useRelaxation), old(gridData[..]), old(StartField()), steps))
    {
      ghost var grid, relaxation, start := gridData[..], useRelaxation, StartField();
      StartRun();
      steps := RunLoop(events, parse, grid, relaxation, start, Filled(2 * numberOfCells, 0.0));
      Stop();
    }

    /** The census of the grid and the start-of-run range estimate it gives.
        As written the census compares cells with the double 0.3, so on a
        grid of stored cell codes only the obstacles count. */
    method TerrainEstimate() returns (estimate: real)
      requires Valid()
      ensures estimate == InitialEstimate(gridSize, CountOf(gridData[..], gridData.Length, OBSTACLE),
                                          CountOf(gridData[..], gridData.Length, DIFFICULT))
      ensures estimate >= BaseMax(gridSize)
      ensures (forall i :: 0 <= i < gridData.Length ==> IsStoredCode(gridData[i])) ==>
        estimate == InitialEstimate(gridSize, CountOf(gridData[..], gridData.Length, OBSTACLE), 0)
    {
      var obstacleCount, difficultCount := CountTerrain(gridData, DIFFICULT);
      if forall i :: 0 <= i < gridData.Length ==> IsStoredCode(gridData[i]) {
        DifficultNeverCounted(gridData[..], gridData.Length);
      }
      InitialEstimateBounds(gridSize, obstacleCount, difficultCount);
      estimate := InitialEstimate(gridSize, obstacleCount, difficultCount);
    }

    /** The start-of-run range estimate from the terrain census, stored as
        the current range. */
    method EstimateRange()
      requires Valid()
      modifies this`maxDistanceValue
      ensures Valid() && maxDistanceValue >= BaseMax(gridSize)
      ensures maxDistanceValue == InitialEstimate(gridSize, CountOf(gridData[..], gridData.Length, OBSTACLE),
                                                  CountOf(gridData[..], gridData.Length, DIFFICULT))
    {
      maxDistanceValue := TerrainEstimate();
    }

    /** Fresh counters and convergence tracking, both buffers seeded at the
        goal, the flowfield cleared. */
    method ResetRunState()
      requires Valid()
      modifies this`currentIteration, this`usesPingPong, this`hasConverged, this`lastIterationData,
               this`distancePing, this`distancePong, this`flowfield
      ensures Valid()
      ensures currentIteration == 0 && usesPingPong && !hasConverged && lastIterationData == None
      ensures Buffers() == StartField() && flowfield == Filled(2 * numberOfCells, 0.0)
    {
      currentIteration := 0;
      usesPingPong := true;
      hasConverged := false;
      lastIterationData := None;
      var distanceData := Seeded(numberOfCells, goalY * gridSize + goalX);
      distancePing := distanceData;
      distancePong := distanceData;
      flowfield := Filled(2 * numberOfCells, 0.0);
    }

    /** The set-up of `runSimulation`: a running simulation is stopped, the
        run state is reset, the range is estimated from the terrain. */
    method StartRun()
      requires Valid()
      modifies this`isRunning, this`currentIteration, this`usesPingPong, this`hasConverged, this`lastIterationData,
               this`maxDistanceValue, this`distancePing, this`distancePong, this`flowfield
      ensures Valid() && isRunning && gridData[..] == old(gridData[..])
      ensures currentIteration == 0 && usesPingPong && !hasConverged && lastIterationData == None
      ensures Buffers() == StartField() && flowfield == Filled(2 * numberOfCells, 0.0)
      ensures maxDistanceValue == InitialEstimate(gridSize, CountOf(gridData[..], gridData.Length, OBSTACLE),
                                                  CountOf(gridData[..], gridData.Length, DIFFICULT))
    {
      if isRunning {
        Stop();
      }
      ResetRunState();
      EstimateRange();
      isRunning := true;
    }
  }
}
