# BFS flowfield simulation: a Dafny model

This project models the core of a grid pathfinding demo. The demo computes a
distance field over an N×N terrain grid, working outward from a goal cell.
It does this with repeated GPU "propagation" dispatches that alternate
between two distance buffers (ping and pong). After each dispatch it derives
a flowfield (one direction vector per cell) with a gradient pass. Users can
edit the terrain, move the goal, load a maze or build a fallback maze, and
change the pacing while a run is in progress.

The model consists of these modules:

- `Simulation` (simulation.dfy): the `PathfindingSimulation` class.
  - Its fields are the ones the driver updates in place: the grid (an
    `array<real>`), the goal, the ping-pong flag, the iteration counter,
    the convergence flag and retained snapshot, the display range estimate
    and the running flag.
  - The two distance buffers and the flowfield are `seq<real>` fields that
    the methods reassign.
  - The compute kernels are not visible source. They appear as per-cell
    rules carried in a `Kernels` value (`SimulationRules.Kernels`).
  - `RunSimulation` is the run loop. What the user interface does while a
    run waits between two steps is given as input: `events[i]`, the calls
    made after step i + 1.
  - When there are no such events, the run's final state is tied to a
    specification: `Iterate` (dispatches), `FlowAfter` (gradient passes)
    and `StopsAt` (which check ends the run).
  - The driver reads its buffers as the source does: the gradient pass, the
    convergence check and the range readback all see the buffer the last
    dispatch read, one step behind the one it wrote (see Findings). The
    corrected readings are `FreshFlowAfter` and `FreshConvergedAt`, related
    to the run as written by `StopsWithinThreeSteps`.
  - The start-of-run census compares cells with the double 0.3, as the
    source does, so stored difficult cells are not counted (see Findings).
  - Edits made during a run reset `currentIteration` but not the loop's own
    step count. The 512-step budget therefore counts from the start of the
    run, as in the source.
- `SimulationRules` (simulation_rules.dfy): the rules of the driver that do
  not depend on the object:
  - the range estimator and its tiers
  - the convergence comparison with tolerance 1e-6
  - the terrain census
  - the fallback maze
  - the ring search for a goal in a loaded maze
  - the speed clamp and the slider's delay formula
  - the specification of a run without interference
- `Bindings` (bindings.dfy): which buffer each bind group binds at each
  binding, and how the ping-pong flag selects groups.
- `Buffers` (buffers.dfy): the initial buffer contents and the 16-byte
  uniform header. The header holds two little-endian u32 grid sizes, then
  the float32 bit patterns of √2 and 1/√2.
- `TerrainCsv` (terrain_csv.dfy): the 32×32 CSV saver and loader. It uses
  `split`, `join` and `trim` as JavaScript defines them. Number formatting
  and parsing are function parameters.
- `ObstacleGrid` (obstacle_grid.dfy): the terrain editor's logic:
  - mouse position to cell
  - drawing mode to cell code
  - the click and drag handlers, which emit the edits the simulation applies
  - the instance-coordinate table
  - the scan for a goal marker
- `ReferenceRelaxation` (reference_relaxation.dfy): the Python CPU
  reference. It covers the 8-neighbour relaxation with terrain costs and
  corner gates, double-buffered by iteration parity, and the
  steepest-descent gradient. The methods work on `array2<real>`. A
  per-cell specification over grid snapshots states what they compute.
- `Terrain` (terrain.dfy): the cell codes (0.0, 0.3, 1.0, and 3.0 for the
  goal directive), and the float32 value a `Float32Array` holds for each.
- `Wrappers` (wrappers.dfy): `Option` and `Result`.

## Model

| member | source | states |
|---|---|---|
| Simulation.PathfindingSimulation.constructor | src/js/PathfindingSimulation.js:11-52 | a new simulation has an all-traversable N×N grid, the goal at (⌊N/2⌋, ⌊N/2⌋), both buffers seeded there, a cleared flowfield, 100 ms pacing, range 50, relaxation on, not running and not converged |
| Simulation.PathfindingSimulation.SetRelaxation | src/js/PathfindingSimulation.js:152-169 | switching modes selects the pipeline, resets the range to max(N/2, 10) and clears convergence tracking; the buffers are untouched |
| Simulation.PathfindingSimulation.SetGoal | src/js/PathfindingSimulation.js:478-495 | both buffers hold 1.0 exactly at the goal's index and 0.0 elsewhere, which is the start state of a run; convergence tracking is cleared and the counters restart |
| Simulation.PathfindingSimulation.ResetDistanceField | src/js/PathfindingSimulation.js:450-475 | the buffers are reseeded at the current goal, the counters restart, the flowfield is cleared and the range becomes max(0.6N, 12) |
| Simulation.PathfindingSimulation.UpdateCell | src/js/PathfindingSimulation.js:427-447 | code 3.0 only moves the goal and leaves the grid, range and flowfield unchanged; any other code changes exactly cell y·N+x (to its float32 value) and restarts the field; an index outside the grid changes no cell |
| Simulation.PathfindingSimulation.Stop | src/js/PathfindingSimulation.js:498-501 | the simulation is no longer running |
| Simulation.PathfindingSimulation.ResetGrid | src/js/PathfindingSimulation.js:504-538 | stopped, every cell 1.0, goal at the centre and seeded there, range 10, flowfield cleared, convergence cleared |
| Simulation.PathfindingSimulation.CreateFallbackMaze | src/js/PathfindingSimulation.js:611-647 | the grid becomes exactly `FallbackMaze(N)` and the goal is its open centre |
| Simulation.PathfindingSimulation.MazeRows | src/js/PathfindingSimulation.js:614-626 | the nested loop writes the maze row by row over an all-traversable grid |
| Simulation.PathfindingSimulation.SetSimulationSpeed | src/js/PathfindingSimulation.js:668-670 | the pacing delay is the requested one clamped to [10, 1000] |
| Simulation.PathfindingSimulation.LoadMaze | src/js/PathfindingSimulation.js:563-608 | a failed fetch or parse builds the fallback maze with the goal at the centre; a loaded grid replaces the array and the goal is the first open cell of the ring search, or the centre when the searched rings hold none |
| Simulation.PathfindingSimulation.InstallGrid | src/js/PathfindingSimulation.js:566-591 | the loaded cells become the grid and the goal goes to the nearest open cell in search order |
| Simulation.PathfindingSimulation.RunBfsIteration | src/js/PathfindingSimulation.js:276-298 | one dispatch reads the latest buffer and overwrites the older one; the roles swap, the flag flips and the counter rises by exactly one |
| Simulation.PathfindingSimulation.GenerateFlowfield | src/js/PathfindingSimulation.js:301-318 | the flowfield is recomputed from the slot `getGradientBindGroup` selects, which after the flip is the buffer the last dispatch read, one step behind the one it wrote |
| Simulation.PathfindingSimulation.CheckConvergence | src/js/PathfindingSimulation.js:321-360 | the check reads the same slot as the gradient (the last dispatch's input); the flag is set only if a snapshot was kept and every cell of that reading is within 1e-6 of it; the flag is never cleared; the snapshot is always replaced by the reading |
| Simulation.PathfindingSimulation.UpdateMaxDistance | src/js/PathfindingSimulation.js:363-400 | the new range is the estimator `NextEstimate` applied to the count, sum and maximum of the positive cells of the same slot the check reads |
| Simulation.PathfindingSimulation.ApplyEvents | src/js/PathfindingSimulation.js:258-261 | the calls the interface makes while a run waits (stop, edit, relaxation switch, speed, reset, maze load) keep the object valid; only a maze load replaces the grid array, with a fresh one; an empty list of calls changes nothing |
| Simulation.PathfindingSimulation.RunLoop | src/js/PathfindingSimulation.js:237-262 | the loop takes 1 to 512 passes; without interference the grid array is kept, the buffers, counter, flag and flowfield are those of `steps` rounds as written (each gradient pass reads its dispatch's input), and it stops exactly at the first check that finds the observed buffer settled against the reading three steps earlier, or at the budget |
| Simulation.PathfindingSimulation.Pass | src/js/PathfindingSimulation.js:237-261 | one pass of the loop keeps the run's state equal to the as-written specification of one more round; only the maze load among the waiting calls replaces the grid array |
| Simulation.PathfindingSimulation.Round | src/js/PathfindingSimulation.js:239-251 | a dispatch, a gradient pass over the dispatch's input and, every third pass, a check advance the specified run by one round |
| Simulation.PathfindingSimulation.Advance | src/js/PathfindingSimulation.js:239-242 | a dispatch followed by a gradient pass advances `Iterate` and `FlowAfter` by one step; the gradient reads `Iterate(n + 1).older`, the buffer the dispatch read |
| Simulation.PathfindingSimulation.Observe | src/js/PathfindingSimulation.js:248-251 | only passes with i % 3 == 0 check; after pass i the flag holds exactly when `ConvergedAt(i + 1)`, the comparison of the observed buffers `Iterate(i + 1).older` and `Iterate(i - 2).older` |
| Simulation.PathfindingSimulation.Inspect | src/js/PathfindingSimulation.js:249-250 | the check after step i + 1 compares the observed buffer with the one kept three steps earlier, so it decides exactly `ConvergedAt(i + 1)` |
| Simulation.PathfindingSimulation.RunSimulation | src/js/PathfindingSimulation.js:195-273 | the run ends not running and takes 1 to 512 steps; without interference the grid array and the goal are kept, the buffers and flowfield are those of `steps` rounds as written from the seeded start, no earlier check converged, and the run stops early exactly when a check finds the observed buffer settled |
| Simulation.PathfindingSimulation.StartRun | src/js/PathfindingSimulation.js:196-233 | a run starts with the counters at zero, both buffers seeded at the goal, a cleared flowfield, no convergence state, and the range set to the as-written terrain estimate |
| Simulation.PathfindingSimulation.ResetRunState | src/js/PathfindingSimulation.js:202-227 | the counters restart, both buffers are seeded at the goal and the flowfield is cleared |
| Simulation.PathfindingSimulation.TerrainEstimate | src/js/PathfindingSimulation.js:207-217 | the estimate is `InitialEstimate` of the count of cells equal to 0.0 and of cells equal to the double 0.3, at least max(N/2, 10); on a grid of stored cell codes it is the estimate with no difficult cell |
| Simulation.PathfindingSimulation.EstimateRange | src/js/PathfindingSimulation.js:207-217 | the range becomes the as-written start-of-run estimate, which is at least max(N/2, 10) |
| SimulationRules.Seeded | src/js/PathfindingSimulation.js:487-488 | a seeded buffer holds 1.0 exactly at the goal's index and 0.0 everywhere else |
| SimulationRules.BaseMax | src/js/PathfindingSimulation.js:157 | the base range is max(N/2, 10), so it is at least 10 and at least N/2 |
| SimulationRules.TerrainEditMax | src/js/PathfindingSimulation.js:463 | the range after an edit is max(0.6N, 12), so it is at least 12 and at least 0.6N |
| SimulationRules.InitialEstimateBounds | src/js/PathfindingSimulation.js:215-217 | the start-of-run estimate is at least the base range (≥ 10), and at most three times it when the census counts no more cells than the grid has |
| SimulationRules.NextEstimate | src/js/PathfindingSimulation.js:380-397 | 10 or fewer positive cells leave the range unchanged; a range of at least 5 stays at least 5 |
| SimulationRules.EstimateCoversMaximum | src/js/PathfindingSimulation.js:383-397 | unless the mean clamp fires, the new range covers the observed maximum; when it fires, the range is max(3 × mean, 10) |
| SimulationRules.PositiveStatsMeaning | src/js/PathfindingSimulation.js:370-378 | the maximum bounds every positive reading and is one of them (or 0 when none is positive); the sum and the maximum are positive exactly when some reading is |
| SimulationRules.PositiveStats | src/js/PathfindingSimulation.js:366-378 | the readback loop computes the count, sum and maximum of the positive readings |
| SimulationRules.HasChanged | src/js/PathfindingSimulation.js:343-351 | the comparison loop reports a change exactly when some cell differs from the snapshot by more than 1e-6 |
| SimulationRules.SettledSymmetric | src/js/PathfindingSimulation.js:347 | the tolerance test is symmetric in the two readings |
| SimulationRules.CountTerrain | src/js/PathfindingSimulation.js:208-213 | the census loop counts the cells equal to 0.0 and those equal to the difficult value |
| SimulationRules.DifficultNeverCounted | src/js/PathfindingSimulation.js:212 | as written, comparing stored cells with the double 0.3 counts no difficult cell on any grid of stored codes |
| SimulationRules.FallbackDifficultUncounted | src/js/PathfindingSimulation.js:212 | the 32×32 fallback maze holds a difficult cell, yet the census as written counts none |
| SimulationRules.DifficultEditCounted | src/js/PathfindingSimulation.js:208-213 | a census of the stored float32 value counts one more cell after a cell is painted difficult |
| SimulationRules.FallbackCell | src/js/PathfindingSimulation.js:618-624 | every maze cell holds a stored cell code (border and lattice walls 0.0, every seventh anti-diagonal difficult, otherwise 1.0) |
| SimulationRules.FallbackMaze | src/js/PathfindingSimulation.js:611-630 | the maze has N² cells, each a stored cell code |
| SimulationRules.FallbackMazeAt | src/js/PathfindingSimulation.js:616-630 | cell (x, y) sits at index y·N+x and is that maze cell; the centre is open |
| SimulationRules.NearestOpenCell | src/js/PathfindingSimulation.js:569-591 | the search returns an open cell that no other open cell in the searched rings precedes (ring, then dy, then dx); otherwise the centre, with no open cell in the searched rings |
| SimulationRules.ScanRing | src/js/PathfindingSimulation.js:574-588 | one ring finds the nearest open cell, or shows that every open cell lies farther out |
| SimulationRules.ScanRow | src/js/PathfindingSimulation.js:575-587 | one row of a ring finds the nearest open cell, or passes the row without one |
| SimulationRules.Probe | src/js/PathfindingSimulation.js:576-581 | a probe reports whether the cell is inside the grid and holds exactly 1.0 |
| SimulationRules.FirstOpenIsNearest | src/js/PathfindingSimulation.js:581-585 | the first open cell the scan meets is the nearest in visiting order |
| SimulationRules.ProbeClosed | src/js/PathfindingSimulation.js:579-586 | a closed position is passed without skipping an open cell |
| SimulationRules.RowPassed | src/js/PathfindingSimulation.js:574-575 | after a row the scan continues at the start of the next without skipping an open cell |
| SimulationRules.ClampSpeed | src/js/PathfindingSimulation.js:668-670 | the delay lies in [10, 1000] and equals the request whenever the request is in range |
| SimulationRules.ClampSpeedIdempotent | src/js/PathfindingSimulation.js:669 | clamping twice is clamping once |
| SimulationRules.SliderDelayUnclamped | src/main.js:103-117 | over slider positions 1..50 the delay is 510 − 10·s, the clamp never alters it, and a faster setting gives a shorter delay |
| SimulationRules.RoundStep | src/js/PathfindingSimulation.js:239-242 | one round's dispatch reads the latest buffer and overwrites the older one, and the gradient pass after it reads the buffer the dispatch read |
| SimulationRules.CheckPointGap | src/js/PathfindingSimulation.js:248 | on passes with i % 3 ≠ 0 no check runs and the kept reading stays within three steps |
| SimulationRules.CheckPointStep | src/js/PathfindingSimulation.js:248-250 | checks happen after steps 1, 4, 7, …; each compares the observed buffer with the one kept three steps before, and the first has nothing to compare with |
| SimulationRules.ObserversLagOneStep | src/js/PathfindingSimulation.js:296-324 | as written, after step s the observed buffer is the one written by step s − 1, so the flowfield is a gradient of that buffer and the check compares the buffers written by steps s − 1 and s − 4 |
| SimulationRules.StopsWithinThreeSteps | src/js/PathfindingSimulation.js:237-256 | once the written buffers hold still from step s − 3 through s + 2, the corrected check at check point s finds them settled, the check as written does at s + 3, and a run as written stops by step s + 3 |
| SimulationRules.RunStopsLate | src/js/PathfindingSimulation.js:296-324 | on a one-cell grid whose dispatches write 2.0, the corrected check stops the run after step 4, while as written the check at step 4 compares the seed with a written buffer and the run stops only after step 7 |
| Bindings.BfsNeverReadsOwnOutput | src/js/bindGroup.js:3-23 | no propagation dispatch reads the buffer it writes |
| Bindings.DispatchesChain | src/js/bindGroup.js:8-9 | the next dispatch reads what the previous one wrote |
| Bindings.SharedBindings | src/js/bindGroup.js:3-54 | every group binds the grid at 0 and the uniforms at 3 |
| Bindings.GradientGroup | src/js/bindGroup.js:40-54 | the dynamic gradient group writes the flowfield and reads Pong when the flag is true, Ping otherwise |
| Bindings.SourceSlot | src/js/bindGroup.js:3-23 | the slot a dispatch reads is the input bound by the group the flag selects |
| Bindings.TargetSlot | src/js/bindGroup.js:3-23 | the slot a dispatch writes is the selected group's output, never its input |
| Bindings.GradientReadsDispatchSource | src/js/bindGroup.js:40-42 | as written, after a dispatch and the flip, the gradient reads the buffer the dispatch read, never the one it wrote |
| Bindings.FreshSlotIsDispatchOutput | src/js/bindGroup.js:40-42 | the corrected selection reads the buffer the dispatch just wrote, which differs from the slot selected as written |
| Buffers.DecodeEncode | src/js/buffers.js:10-11 | decoding a little-endian u32 encoding gives the value modulo 2^32 |
| Buffers.EncodeDecode | src/js/buffers.js:10-11 | encoding a decoded 4-byte word gives the bytes back |
| Buffers.SetUint32 | src/js/buffers.js:10-11 | a write changes exactly the four bytes at the offset, to the little-endian encoding |
| Buffers.HeaderFields | src/js/buffers.js:6-13 | the header is 16 bytes; its fields sit at 0, 4, 8 and 12 without overlapping and read back as N, N and the two float patterns |
| Buffers.DiagonalConstants | src/js/buffers.js:12-13 | the stored float patterns are √2 and 1/√2 to float32 precision |
| Buffers.InitBuffers | src/js/buffers.js:1-49 | the header is `HeaderBytes(N)`; the grid is all 1.0; ping and pong have the same length and are all 0.0 with no seed; the flowfield holds 2·cells zeros |
| TerrainCsv.SaveFloat32ArrayAsCsv | src/js/util.js:25-39 | saving fails exactly when the array does not hold 1024 values, and otherwise yields the row-by-row text |
| TerrainCsv.LoadCsvToFloat32Array | src/js/util.js:1-23 | loading fails exactly when the trimmed text has fewer than 32 lines; otherwise it yields 1024 values, element y·32+x parsed from line y, field x (a missing field parses the text "undefined") |
| TerrainCsv.SplitJoin | src/js/util.js:8 | splitting a join gives the pieces back when no piece holds the separator |
| TerrainCsv.SavedShape | src/js/util.js:33-39 | the saved text ends in a newline and splits into 32 lines of 32 comma-separated fields |
| TerrainCsv.TrimSaved | src/js/util.js:8 | trimming the saved text leaves the 32 lines joined by newlines |
| TerrainCsv.RowRoundTrip | src/js/util.js:33-37 | each saved line splits back into its 32 fields and holds no newline |
| TerrainCsv.LoadAfterSave | src/js/util.js:1-39 | loading a saved grid gives the grid back whenever parsing undoes formatting |
| TerrainCsv.Trim | src/js/util.js:8 | the trimmed text neither starts nor ends with white space |
| ObstacleGrid.GridCoordinates | src/js/renderers/ObstacleGridRenderer.js:226-239 | a returned cell is in the grid, with the column from the left and the row flipped to count from the bottom; every mouse position inside a non-empty canvas yields a cell |
| ObstacleGrid.InsideCanvas | src/js/renderers/ObstacleGridRenderer.js:231-233 | a position inside the canvas scales to a coordinate in [0, N) |
| ObstacleGrid.ModeCellType | src/js/renderers/ObstacleGridRenderer.js:254-258 | 'obstacle' gives 0.0, 'difficult' gives 0.3, anything else gives 1.0; it is never the goal code |
| ObstacleGrid.ObstacleGridRenderer.constructor | src/js/renderers/ObstacleGridRenderer.js:4-36 | a new editor has no marker, no drag and no callback |
| ObstacleGrid.ObstacleGridRenderer.SetUpdateCellCallback | src/js/renderers/ObstacleGridRenderer.js:390-392 | edits are passed on from now on |
| ObstacleGrid.ObstacleGridRenderer.HandleSourcePlacement | src/js/renderers/ObstacleGridRenderer.js:322-331 | the marker moves to the cell, and the goal directive 3.0 is emitted if a callback is set |
| ObstacleGrid.ObstacleGridRenderer.OnClick | src/js/renderers/ObstacleGridRenderer.js:242-261 | a click emits an edit exactly when it lands in the grid and a callback is set; only 'source' mode emits 3.0 and moves the marker; other modes emit the mode's code |
| ObstacleGrid.ObstacleGridRenderer.OnMouseDown | src/js/renderers/ObstacleGridRenderer.js:264-283 | every mode but 'source' starts a drag and paints the cell under the mouse with the mode's code, never 3.0 |
| ObstacleGrid.ObstacleGridRenderer.OnMouseMove | src/js/renderers/ObstacleGridRenderer.js:285-302 | dragging paints the cell under the mouse with the mode's code; drag painting never emits 3.0, even in 'source' mode |
| ObstacleGrid.ObstacleGridRenderer.OnMouseUp | src/js/renderers/ObstacleGridRenderer.js:304-306 | releasing the button ends the drag |
| ObstacleGrid.ObstacleGridRenderer.CreateGridInstanceData | src/js/renderers/ObstacleGridRenderer.js:151-163 | the table has 2·N² entries and pair k is (k mod N, k div N) |
| ObstacleGrid.ObstacleGridRenderer.WriteRowPairs | src/js/renderers/ObstacleGridRenderer.js:159-162 | the inner loop appends the pairs (0, j) … (N−1, j) and advances the index by 2N |
| ObstacleGrid.InstanceTableEntries | src/js/renderers/ObstacleGridRenderer.js:157-163 | entry p of the row-by-row table is x = (p div 2) mod N for even p and y = (p div 2) div N for odd p |
| ObstacleGrid.ObstacleGridRenderer.FindSource | src/js/renderers/ObstacleGridRenderer.js:378-386 | the scan returns the first cell in row-major order holding 3.0, or nothing when no cell does |
| ObstacleGrid.ObstacleGridRenderer.InitializeSource | src/js/renderers/ObstacleGridRenderer.js:377-388 | the marker is the first cell in row-major order holding 3.0, or is cleared exactly when no cell holds 3.0 |
| Terrain.StoredFloat32 | src/js/PathfindingSimulation.js:436 | storing a code in a `Float32Array` keeps 0.0, 1.0 and 3.0 exactly and turns 0.3 into its float32 neighbour |
| ReferenceRelaxation.IsDiagonalAccessible | src/python/BFS_GPU_9point_relaxation.py:40-46 | a diagonal is open exactly when every in-grid gate cell has positive terrain |
| ReferenceRelaxation.DiagonalAccessible | src/python/BFS_GPU_9point_relaxation.py:40-46 | the gate loop with its early return computes `IsDiagonalAccessible` |
| ReferenceRelaxation.TerrainCost | src/python/BFS_GPU_9point_relaxation.py:48-56 | the cost is infinite exactly on terrain 0 |
| ReferenceRelaxation.TerrainCostPositive | src/python/BFS_GPU_9point_relaxation.py:48-56 | on passable terrain with a positive base the cost is finite and positive; it is the base times the magnitude of t for negative t, and the base divided by t for positive t |
| ReferenceRelaxation.Scan | src/python/BFS_GPU_9point_relaxation.py:79-107 | a scan that finds an improvement ends finite and below the start value; one that finds none keeps the start value |
| ReferenceRelaxation.ScanMinimal | src/python/BFS_GPU_9point_relaxation.py:83-107 | an improving scan ends on one of the candidates and no candidate is lower; a scan without improvement saw no candidate below the start |
| ReferenceRelaxation.ObstacleCellsZeroed | src/python/BFS_GPU_9point_relaxation.py:74-76 | cells with terrain 0 are written 0 and never count as a change |
| ReferenceRelaxation.PositiveNeverIncreases | src/python/BFS_GPU_9point_relaxation.py:67-111 | a cell that is not updated keeps its copied value; a positive cell never increases, and strictly decreases when it is updated |
| ReferenceRelaxation.UpdatedTakesMinimum | src/python/BFS_GPU_9point_relaxation.py:83-111 | an updated cell takes the smallest candidate on offer |
| ReferenceRelaxation.ImprovementFromNeighbour | src/python/BFS_GPU_9point_relaxation.py:83-107 | an updated value comes from an in-grid neighbour that is positive and passable (through an open corner for a diagonal), plus the cost of entering the cell |
| ReferenceRelaxation.ClosedCornerBlocksDiagonal | src/python/BFS_GPU_9point_relaxation.py:96-99 | a diagonal with an impassable in-grid gate offers no candidate |
| ReferenceRelaxation.RelaxCell | src/python/BFS_GPU_9point_relaxation.py:78-111 | the per-cell scan sets the update flag exactly when the cell is updated, and then yields the cell's new value |
| ReferenceRelaxation.CopyBuffer | src/python/BFS_GPU_9point_relaxation.py:67 | the next buffer becomes a copy of the current one |
| ReferenceRelaxation.RelaxationIteration | src/python/BFS_GPU_9point_relaxation.py:66-112 | one iteration leaves the next buffer equal to `StepGrid` of the current one and reports a change exactly when some cell was updated |
| ReferenceRelaxation.RelaxColumn | src/python/BFS_GPU_9point_relaxation.py:72-112 | column x of the next buffer receives its new values, other columns are untouched, and a change is reported exactly when a cell of the column is updated |
| ReferenceRelaxation.AdvanceOnce | src/python/BFS_GPU_9point_relaxation.py:59-114 | the buffer chosen by the parity of the iteration is relaxed into the other, which then holds the next iterate |
| ReferenceRelaxation.BfsDistanceFieldTerrainRelaxed | src/python/BFS_GPU_9point_relaxation.py:18-121 | the results are the successive iterates; every iteration but the last changed something; the run stops at the first unchanged iteration, or after maxIterations |
| ReferenceRelaxation.TraceAt | src/python/BFS_GPU_9point_relaxation.py:114 | the k-th recorded copy is the buffer after k + 1 iterations |
| ReferenceRelaxation.LowestScanMinimal | src/python/BFS_GPU_9point_relaxation.py:195-207 | the scan's minimum is the cell's own value or a pointable neighbour's value strictly below it; no scanned neighbour is lower, and every earlier one is strictly higher |
| ReferenceRelaxation.GradientTowardLowest | src/python/BFS_GPU_9point_relaxation.py:189-212 | the gradient is zero on obstacle or unreached cells and where no neighbour is lower; otherwise it is the direction of the first strictly lowest pointable neighbour |
| ReferenceRelaxation.LowestNeighbour | src/python/BFS_GPU_9point_relaxation.py:195-207 | the neighbour loop computes the direction `LowestScan` specifies |
| ReferenceRelaxation.SimpleDirectionalGradient | src/python/BFS_GPU_9point_relaxation.py:155-214 | both component arrays are new, have the field's shape and hold `GradientAt` at every cell |
| ReferenceRelaxation.GradientColumn | src/python/BFS_GPU_9point_relaxation.py:189-212 | column x of the components receives `GradientAt`; other columns are untouched |

## Left out

- The WGSL propagation and gradient kernels are not part of this model. They are per-cell rules passed in as `Kernels`, and nothing is assumed about them; in particular they are not assumed to equal the Python reference.
- GPU device, pipeline, canvas and render-pass set-up (initWebGPU.js, pipelines.js, setupCanvases.js, the renderers' `render` methods), the distance and flowfield renderers, the header blinking and the console output: these are calls into a graphics library, with no state the core reads back.
- Concurrency of `await`: each GPU submission and readback is one sequential step. User-interface calls during a run are taken only at the pacing wait of each pass. Calls during a dispatch, a readback, or the 50 ms wait after stopping a running simulation are not modelled.
- The pacing delay itself (`setTimeout`) is not modelled; only the stored delay is.
- `fetch` in `loadMaze`: it is the optional text `csvText`. `parseFloat` followed by the float32 store is the function parameter `parse`. Number formatting in the saver is the parameter `fmt`. The Blob download is left out.
- Floating point is modelled as `real`, except where the source's behaviour depends on it. The one such place is the float32 value stored for 0.3 (`Terrain.F32_DIFFICULT`). NaN, infinities from a zero divisor and rounding in the estimators are not modelled.
- The `if (this.buffers)`, `if (this.distanceRenderer)`, `if (this.obstacleRenderer)` and `if (this.flowfieldRenderer)` guards: the model assumes an initialised simulation with its renderers, so `Simulation.PathfindingSimulation.ResetGrid` always clears the flowfield, which `resetGrid` does only under `if (this.flowfieldRenderer)` (src/js/PathfindingSimulation.js:529).
- `Simulation.PathfindingSimulation.UpdateCell` requires a cell code (0.0, 0.3, 1.0 or 3.0). The editor emits only these (`ObstacleGrid.ModeCellType`, `ObstacleGrid.ObstacleGridRenderer.OnClick`). The source stores any number it is given.
- `Simulation.PathfindingSimulation.LoadMaze` requires a 32×32 simulation, the only size the CSV loader produces. The source would install a 1024-cell grid into a simulation of any size.
- `Simulation.PathfindingSimulation.RunSimulation` states the buffers, flowfield and stopping step only for runs without user-interface calls. With interference it promises only validity, a grid array that is kept or replaced by a fresh one, 1 to 512 steps and a stopped simulation. The range estimate after a run is not stated.
- `Simulation.PathfindingSimulation.RunSimulation` and `Simulation.PathfindingSimulation.ApplyEvents` do not model pressing Start while a run is in progress. The source then stops the run, waits 50 ms and starts a second run loop; when the pacing delay exceeds 50 ms, the first loop wakes to find the running flag set again and goes on dispatching beside the second. Two interleaved loops are concurrency, which this sequential model does not capture; `Simulation.PathfindingSimulation.StartRun` still models the stop of a running simulation.
- `Simulation.PathfindingSimulation.ApplyEvents` states only that the object stays valid and that no call but a maze load replaces the grid array. The effect of each call is the contract of the method it dispatches to. A maze load during a run needs a 32×32 simulation, which is the size src/main.js:7 creates.
- `Simulation.PathfindingSimulation.LoadMaze` does not model the renderer's goal marker update or the re-render.
- `ReferenceRelaxation.BfsDistanceFieldTerrainRelaxed` uses `Grid` snapshots for the recorded copies. Python's `float('inf')` is the `Dist` datatype. √2 is a positive constant; its exact value does not matter to the proofs.
- The Python module-level demo grid, the plotting, and the other Python scripts (LUT analysis, output loading): these are plotting and numerical analysis, not part of the pathfinding logic.
- src/main.js beyond the slider formula: DOM wiring only.

## Findings

| source | as written | input that shows it | evidently intended | confidence | as-written member | corrected member |
|---|---|---|---|---|---|---|
| src/js/PathfindingSimulation.js:212 | the census compares each `Float32Array` cell with the double 0.3; a stored 0.3 reads back as 0.300000011920929, so the comparison is never true | the 32×32 fallback maze, whose cell (3, 4) is difficult: the estimate counts no difficult cell | difficult cells count half an obstacle in the start-of-run estimate | not executed | SimulationRules.DifficultNeverCounted, SimulationRules.FallbackDifficultUncounted, Simulation.PathfindingSimulation.TerrainEstimate | SimulationRules.DifficultEditCounted |
| src/js/bindGroup.js:40-42 | after a dispatch with flag u the flag flips to ¬u, and `getGradientBindGroup(¬u)` reads the buffer that dispatch read; the convergence check and the range readback (src/js/PathfindingSimulation.js:324 and :406) use the same selection, so every observer lags the propagation by one step | u = true: the dispatch reads Ping and writes Pong, then the gradient reads Ping; on a one-cell grid whose dispatches write 2.0 the run goes on to step 7 where reading the written buffers would stop it after step 4 | the gradient and the checks read "the one that was just written to" | not executed | Bindings.GradientReadsDispatchSource, SimulationRules.RunStopsLate, SimulationRules.ObserversLagOneStep | Bindings.FreshSlotIsDispatchOutput, SimulationRules.StopsWithinThreeSteps |
