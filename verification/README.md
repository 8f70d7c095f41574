# Nebulist ship simulator: a Dafny model

This project models the planning core of the Nebulist "ship" simulator. A
ship is a rectangular grid of cells, each OPEN, ROBOT or BLOCKED (a wall).
The model covers five parts:

- **The action vocabulary and grid bounds** (`types.dfy`, `utils.dfy`). The
  four actions LEFT, RIGHT, UP, DOWN in the order the program iterates them,
  their unit deltas, `inbounds`, and `pick_random_cell`.
- **Ship generation** (`grid.dfy`, `layout.dfy`). `generate_grid`,
  `has_one_open_neighbor`, `fill_open_with_robot`, `set_random_goal_cell`,
  and the randomized carving of `generate_ship_layout`. Carving opens a wall
  only when exactly one of its neighbours is OPEN, so the open region grows
  as a tree.
- **The simultaneous mover** (`move.dfy`). `move` is a pure function from a
  grid to a grid. Every cell is recomputed from the pre-move snapshot.
  `MoveGrid` is the nested loop of `move`, with line 16 read as skipping
  BLOCKED cells, proved to compute that function.
- **Belief states and the localization search** (`belief.dfy`, `plans.dfy`,
  `bfs.dfy`). These model `get_all_possible_positions`, `simulate_move` and
  `find_optimal_sequence`/`solve`, a FIFO breadth-first search over sets of
  possible positions. The search is proved:
  - sound (the plan it returns leaves one possible cell);
  - shortest (no shorter plan localizes);
  - first in LEFT, RIGHT, UP, DOWN order among plans of that length;
  - terminating;
  - to return the empty plan only when no plan localizes or the start is
    already a single cell.
- **The pure helpers of the A\* solver** (`astar.dfy`). `manhattan_distance`,
  `valid_move`, `set_random_dead_end_goal` and `get_random_robot`.

Randomness becomes input:

- `pick_random_cell` takes the two draws as a position `choice`, reduced
  into range.
- `random.choice` takes an index `k`, reduced modulo the list length.
- The order in which `generate_ship_layout` pops its priority queue is an
  arbitrary sequence `order` of indices into the work list. Every carving
  property is proved for every such order.

Raised errors become `Err` values of `Result` (`wrappers.dfy`):

- `EmptyGrid` covers `grid[0]` on an empty grid and `randrange(0)` on empty
  rows.
- `NoOpenCells`, `NoDeadEnd` and `NoRobot` stand for the three
  `RuntimeError`s.

Edge cases of the code that the model keeps:

- `generate_grid(d)` with `d <= 0` returns the empty grid, because
  `range(d)` is empty. `pick_random_cell` then fails with `EmptyGrid`.
- `inbounds` tests the row first and short-circuits. On an empty grid it is
  false and does not fail on `grid[0]`.
- On the row `[OPEN, OPEN, BLOCKED]` the search returns `[LEFT]`, because
  LEFT is tried first (`LocalizeOneByThree`).
- `move` tests `cell in (Cell.BLOCKED, Cell.GOAL)`, but `Cell` has no `GOAL`
  variant, so that line raises `AttributeError` as written. The model reads
  it as "BLOCKED cells are skipped".

## Model

| member | source | states |
|---|---|---|
| Types.Delta | project1/nebulist/setup/types.py:4-8 | every action's delta is a unit orthogonal step, \|dy\| + \|dx\| = 1 |
| Types.DeltaInjective | project1/nebulist/setup/types.py:5-8 | the four deltas are pairwise distinct |
| Types.Opposite | project1/nebulist/setup/types.py:5-8 | LEFT/RIGHT and UP/DOWN are different actions whose deltas are negations of each other |
| Types.StepBack | project1/nebulist/setup/types.py:5-8 | a step followed by the opposite step returns to the start, and opposite is an involution |
| Types.ActionsEnumerate | project1/nebulist/setup/types.py:4-8 | iteration over `Action` visits four distinct actions, LEFT, RIGHT, UP, DOWN, and every action is among them |
| Types.Index | project1/nebulist/setup/types.py:4-8 | the position of an action in iteration order picks that action back out of the order |
| Types.IndexOfAction | project1/nebulist/setup/types.py:4-8 | the k-th action of the iteration order has position k |
| Types.Step | project1/nebulist/setup/types.py:4-8 | moving by an action's delta lands exactly one orthogonal unit away |
| Types.StepInjective | project1/nebulist/setup/types.py:5-8 | different actions from the same cell reach different cells |
| Utils.InBoundsByShape | project1/nebulist/setup/utils.py:6-7 | `inbounds` holds iff 0 <= r < rows and 0 <= c < cols, and grids of the same shape agree on it whatever their cells hold |
| Utils.PassableByWalls | project1/nebulist/bfs/bfs_solver.py:37-38 | whether a robot may stand on a cell depends only on where the walls are |
| Utils.PickCell | project1/nebulist/setup/utils.py:10-12 | `pick_random_cell` succeeds iff the grid has a row and a column, every pick is in bounds, and failure is `EmptyGrid` |
| Utils.PickCellCovers | project1/nebulist/setup/utils.py:10-12 | every in-bounds cell is a possible pick |
| Utils.SetCell | project1/nebulist/setup/grid.py:44 | writing one cell keeps the shape, sets that cell and leaves every other cell as it was |
| Utils.CellsOf | project1/nebulist/astar/solver.py:106-111 | the set of cells holding a value is exactly the in-bounds cells that hold it |
| Utils.CellsOfBound | project1/nebulist/setup/grid.py:44-57 | bounds the walls `generate_ship_layout` can open: once the seed is OPEN, fewer than rows x cols cells are walls, which gives `Layout.CarvedProperties` its bound on the openings |
| Utils.CellsOfSetCell | project1/nebulist/setup/grid.py:56 | writing `v` at `p` adds `p` to the cells holding `v` and removes it from every other class |
| Utils.Listing | project1/nebulist/setup/grid.py:12-17 | the row-major list comprehension holds exactly the in-bounds cells the filter keeps, each once, in row-major order |
| Utils.Choose | project1/nebulist/setup/grid.py:20 | `random.choice` returns an element of the list |
| Utils.ChooseCovers | project1/nebulist/setup/grid.py:20 | every element of the list is a possible choice |
| ShipGrid.GenerateGrid | project1/nebulist/setup/grid.py:7-8 | a d-by-d rectangular grid whose every cell is BLOCKED; empty when d <= 0 |
| ShipGrid.HasOneOpenNeighbour | project1/nebulist/setup/grid.py:31-38 | true iff some action leads to an in-bounds OPEN cell and no other action does; ROBOT and BLOCKED neighbours do not count |
| ShipGrid.OneOpenNeighbourIff | project1/nebulist/setup/grid.py:32-38 | the loop's count of OPEN neighbours is 1 iff exactly one action leads to an OPEN neighbour, in both directions |
| ShipGrid.OnlyOpenNeighbour | project1/nebulist/setup/grid.py:31-38 | with one OPEN neighbour, any two actions reaching an OPEN cell are the same action |
| ShipGrid.OpenCells | project1/nebulist/setup/grid.py:12-17 | the candidate list holds exactly the OPEN cells, each once, in row-major order |
| ShipGrid.SetRandomGoalCell | project1/nebulist/setup/grid.py:11-21 | the goal is an OPEN cell; it fails with `NoOpenCells` iff the grid has no OPEN cell |
| ShipGrid.GoalCellCovers | project1/nebulist/setup/grid.py:18-21 | every OPEN cell can be drawn as the goal |
| ShipGrid.FillOpenWithRobot | project1/nebulist/setup/grid.py:24-28 | walls stay put, no OPEN cell is left, and the ROBOT cells are the old ROBOT cells plus the old OPEN cells |
| ShipGrid.FillIdempotent | project1/nebulist/setup/grid.py:24-28 | filling twice is the same as filling once |
| Layout.GenerateShipLayout | project1/nebulist/setup/grid.py:41-58 | fails with `EmptyGrid` iff the grid has no row or no column. Otherwise, for every pop order: the shape is kept, the seed is OPEN, every other cell is unchanged or went BLOCKED to OPEN, no ROBOT cell is created, and every opening is a valid one. The cells pushed on the heap are the seed followed by the cell of each opening, each a wall when it was opened, so there are at most rows x cols pushes. On a grid of walls the OPEN cells form a tree (OPEN adjacencies = OPEN cells - 1) connected to the seed, and the loop ran until nothing could be opened: no wall is left with exactly one OPEN neighbour |
| Layout.Carve | project1/nebulist/setup/grid.py:47-57 | the work-list loop terminates for every pop order, and its grid is the replay of a log of valid openings. The cells ever pushed are the initial entries followed by the cell of each opening, in order. Every OPEN cell of the result has had all four neighbours tried and none of them can pass the test any more, except OPEN cells of the start that were never on the work-list |
| Layout.OpenAround | project1/nebulist/setup/grid.py:49-57 | the neighbour scan only opens cells that pass the test and never re-blocks a cell. The new work-list is the old one followed by exactly the cells it opened, in the order it opened them, so it pushes nothing else and nothing twice. Afterwards no neighbour of the popped cell is a wall that passes the test, every cell it opened is pushed, the old work-list is kept, and cells explored before stay explored. Only neighbours of the popped cell change: every other cell keeps its value, the log only grows at the end, and each new entry opens a neighbour of the popped cell with the popped cell as its parent |
| Layout.ScanFrameOpen | project1/nebulist/setup/grid.py:49-57 | opening the next neighbour of the popped cell, with the popped cell as parent, changes no cell outside its neighbours and keeps the earlier log entries |
| Layout.LogSnoc | project1/nebulist/setup/grid.py:51-56 | a valid opening extends a valid log, and replaying it writes OPEN at the opened cell |
| Layout.OpeningKeeps | project1/nebulist/setup/grid.py:51-57 | opening a cell keeps the log valid, keeps every pushed cell OPEN and strictly shrinks the set of walls |
| Layout.CarvedProperties | project1/nebulist/setup/grid.py:43-57 | the carved grid keeps its shape, has the seed OPEN, only turns walls into OPEN cells and makes no ROBOT cell. The number of openings plus the remaining walls equals the walls after seeding, and the openings plus the seed number at most rows x cols. On a grid of walls the result is a tree connected to the seed |
| Layout.ScanNeighbours | project1/nebulist/setup/grid.py:50-57 | the loop over the four neighbours in `Action` order keeps the scan invariant through all four |
| Layout.TryNeighbour | project1/nebulist/setup/grid.py:51-57 | one neighbour: opened and pushed, with the popped cell as parent, exactly when it is an in-bounds wall with one OPEN neighbour, and left alone otherwise |
| Layout.PushFrameOpen | project1/nebulist/setup/grid.py:56-57 | pushing the cell just opened keeps the work-list equal to the old list followed by the opened cells |
| Layout.OpenedAppend | project1/nebulist/setup/grid.py:56-57 | the cells of two runs of openings, one after the other, are the cells of each run in turn |
| Layout.PushedStep | project1/nebulist/setup/grid.py:47-57 | after one scan the cells ever pushed are still the initial entries followed by the cells of all openings |
| Layout.CarveStep | project1/nebulist/setup/grid.py:47-57 | one pop and scan keeps the loop invariant, and either a wall was opened or the work-list got shorter, which is why the loop ends |
| Layout.PendingAfterScan | project1/nebulist/setup/grid.py:47-57 | after a pop and scan every OPEN cell is pending, explored, or an untouched OPEN cell of the start |
| Layout.PopKeeps | project1/nebulist/setup/grid.py:48 | popping one entry off the work-list keeps every other entry |
| Layout.SettledFails | project1/nebulist/setup/grid.py:31-38 | a wall with two different OPEN neighbours fails `has_one_open_neighbor` |
| Layout.OtherOpenNeighbour | project1/nebulist/setup/grid.py:31-38 | a cell with one OPEN neighbour that fails the test has a second OPEN neighbour in another direction |
| Layout.FailedTestSettles | project1/nebulist/setup/grid.py:51-55 | a neighbour of an OPEN cell that fails the test is not a wall or has two OPEN neighbours |
| Layout.SettledAfterOpening | project1/nebulist/setup/grid.py:56 | opening a cell keeps a wall with two OPEN neighbours in that state |
| Layout.ExploredAfterOpening | project1/nebulist/setup/grid.py:56 | opening a cell keeps every explored cell explored |
| Layout.ExploredIsMaximal | project1/nebulist/setup/grid.py:47-57 | when every OPEN cell is explored no wall passes the test, so the loop has nothing left to open |
| Layout.SeedOnlyPending | project1/nebulist/setup/grid.py:43-57 | carved from a grid of walls, every wall of the result fails the test |
| Layout.TryOpens | project1/nebulist/setup/grid.py:51-57 | opening and pushing a neighbour that passes the test keeps the scan's invariant |
| Layout.TrySkips | project1/nebulist/setup/grid.py:51-55 | skipping a neighbour that fails the test keeps the scan's invariant, now covering that neighbour |
| Layout.AllTriedExplored | project1/nebulist/setup/grid.py:49-50 | once the four neighbours are tried the popped cell is explored and none of its neighbours passes the test |
| Layout.OpeningSettles | project1/nebulist/setup/grid.py:56-57 | an opening inside the scan keeps the neighbours already tried settled, enqueues the new OPEN cell and keeps explored cells explored |
| Layout.CarvedOnlyOpens | project1/nebulist/setup/grid.py:51-56 | every replayed cell is as it started or turned from BLOCKED to OPEN |
| Layout.CarvedCounts | project1/nebulist/setup/grid.py:51-57 | carving creates no ROBOT cell, and each opening removes exactly one wall |
| Layout.OpeningCounts | project1/nebulist/setup/grid.py:56 | opening one wall keeps the ROBOT cells and leaves one wall fewer |
| Layout.SeedIsTree | project1/nebulist/setup/grid.py:43-44 | after seeding a grid of walls, the seed is the only OPEN cell and there are no OPEN adjacencies |
| Layout.OpeningAddsOneEdge | project1/nebulist/setup/grid.py:51-56 | opening a wall with exactly one OPEN neighbour adds one OPEN cell and one OPEN adjacency |
| Layout.EdgesAfterOpening | project1/nebulist/setup/grid.py:51-56 | the OPEN adjacencies after such an opening are the old ones plus the edge to the single OPEN neighbour |
| Layout.LogKeepsTree | project1/nebulist/setup/grid.py:47-57 | every valid log preserves OPEN adjacencies + 1 = OPEN cells |
| Layout.SeedConnected | project1/nebulist/setup/grid.py:43-44 | after seeding a grid of walls, every OPEN cell is connected to the seed |
| Layout.WalkSurvivesOpening | project1/nebulist/setup/grid.py:56 | opening a cell never breaks an existing walk through OPEN cells |
| Layout.LogKeepsConnected | project1/nebulist/setup/grid.py:47-57 | every valid log keeps every OPEN cell connected to the root |
| Layout.ConnectedAfterOpening | project1/nebulist/setup/grid.py:51-56 | a newly opened cell is connected to the root through its OPEN parent, and old connections survive |
| Layout.OpenEdges | project1/nebulist/setup/grid.py:49-54 | the OPEN adjacencies are the pairs of OPEN cells one step RIGHT or DOWN apart |
| Mover.Move | project1/nebulist/setup/move.py:5-27 | walls stay where they are, the shape is kept, and every cell's new value is `NextCell` of the snapshot alone. `NextCell` is the per-cell rule of move.py:15-27: a wall stays a wall, and any other cell holds a ROBOT afterwards iff the cell behind it holds one, or it holds one whose cell ahead is off the grid or BLOCKED |
| Mover.MoveGrid | project1/nebulist/setup/move.py:5-27 | the in-place loop over a copied snapshot computes exactly `Move` |
| Mover.MoveWithoutRobots | project1/nebulist/setup/move.py:22-27 | a grid with no ROBOT cell is left unchanged |
| Mover.MoveFixedWhenStuck | project1/nebulist/setup/move.py:19-27 | when every robot faces a wall or the edge, the grid is left unchanged |
| Mover.NextCellWhenStuck | project1/nebulist/setup/move.py:19-27 | under the same condition, every cell keeps its value |
| Mover.SameGridByCells | project1/nebulist/setup/move.py:13-27 | two grids of the same shape agreeing on every cell are equal |
| Belief.AllPossiblePositions | project1/nebulist/bfs/bfs_solver.py:18-25 | exactly the in-bounds non-BLOCKED cells, ROBOT cells included |
| Belief.FillCoversAllPossible | project1/nebulist/setup/grid.py:24-28 | after `fill_open_with_robot` the ROBOT cells are exactly the possible positions |
| Belief.Dest | project1/nebulist/bfs/bfs_solver.py:33-42 | a position moves to its neighbour iff that neighbour is in bounds and not BLOCKED, and otherwise stays put |
| Belief.SimulateMove | project1/nebulist/bfs/bfs_solver.py:27-44 | the new belief set is never larger than the old one |
| Belief.SimulateMoveIff | project1/nebulist/bfs/bfs_solver.py:32-42 | a cell is in the new belief set iff some old position moves onto it |
| Belief.ImageNoLarger | project1/nebulist/bfs/bfs_solver.py:32-42 | the image of a set under the per-position step is no larger than the set |
| Belief.SimulateMoveStaysPossible | project1/nebulist/bfs/bfs_solver.py:37-42 | if every position is in bounds and not BLOCKED, so is every new position |
| Belief.SimulateMoveByWalls | project1/nebulist/bfs/bfs_solver.py:37-38 | the belief update depends only on where the walls are |
| Belief.Run | project1/nebulist/bfs/bfs_solver.py:65-71 | folding the belief update over a plan never enlarges the set |
| Belief.RunStaysPossible | project1/nebulist/bfs/bfs_solver.py:65-71 | folding keeps the belief inside the possible positions |
| Belief.RunByWalls | project1/nebulist/bfs/bfs_solver.py:65-71 | the folded belief depends only on where the walls are |
| Belief.MoveTracksBelief | project1/nebulist/setup/move.py:19-27 | the ROBOT cells after `move` are exactly `simulate_move` applied to the ROBOT cells before it |
| Belief.MoveTracksBeliefAt | project1/nebulist/setup/move.py:19-27 | the same agreement, one cell at a time |
| Belief.NextCellRobotIff | project1/nebulist/setup/move.py:19-27 | a cell becomes ROBOT iff some ROBOT cell moves onto it or stays on it, in both directions |
| Belief.NextCellRobotHasSource | project1/nebulist/setup/move.py:19-27 | every new ROBOT cell has a robot that moved or stayed there |
| Belief.DestIsNextRobot | project1/nebulist/setup/move.py:19-27 | every robot's destination holds a ROBOT after the move |
| Belief.MoveNeverAddsRobots | project1/nebulist/setup/move.py:19-27 | the number of ROBOT cells never increases |
| Belief.MoveNoJump | project1/nebulist/setup/move.py:19-27 | every new ROBOT cell is an old ROBOT cell or one step from one in the direction of the move |
| Belief.MoveAll | project1/nebulist/setup/move.py:5-27 | applying a plan of moves keeps the walls where they are |
| Belief.MoveAllTracksRun | project1/nebulist/setup/move.py:19-27 | the ROBOT cells after a plan of moves are the belief set folded over that plan |
| Belief.LocalizingPlanLeavesOneRobot | project1/nebulist/bfs/bfs_solver.py:49-62 | a localizing plan, played on the grid filled with robots, leaves exactly one ROBOT cell |
| Plans.LexIrreflexive | project1/nebulist/bfs/bfs_solver.py:65 | no plan comes before itself in action order |
| Plans.LexTransitive | project1/nebulist/bfs/bfs_solver.py:65 | order among plans of one length is transitive |
| Plans.PlanTransitive | project1/nebulist/bfs/bfs_solver.py:57-71 | "shorter, or as long and earlier in action order" is transitive |
| Plans.LexAppend | project1/nebulist/bfs/bfs_solver.py:71 | extending two ordered plans by one action each keeps their order |
| Plans.LexLastAction | project1/nebulist/bfs/bfs_solver.py:65-71 | extending one plan by an earlier action gives an earlier plan |
| Plans.LexSplit | project1/nebulist/bfs/bfs_solver.py:65-71 | an ordered pair of extended plans is ordered by the prefixes, or shares them and is ordered by the last action |
| BfsSolver.SubsetsComplete | project1/nebulist/bfs/bfs_solver.py:54-71 | every belief set the search can see lies among the finitely many subsets of the start set |
| BfsSolver.UnseenShrinks | project1/nebulist/bfs/bfs_solver.py:69-70 | adding to the visited set strictly shrinks the unseen subsets, which is the termination measure |
| BfsSolver.LevelUp | project1/nebulist/bfs/bfs_solver.py:57-58 | when the queue front moves to the next plan length, the search invariant carries over |
| BfsSolver.FrontIsLeast | project1/nebulist/bfs/bfs_solver.py:57-62 | a singleton at the queue front is reached by a localizing plan that no shorter or earlier plan beats; a singleton start gives the empty plan |
| BfsSolver.ExhaustedCannotLocalize | project1/nebulist/bfs/bfs_solver.py:57-73 | when the queue runs dry, no plan localizes the start |
| BfsSolver.ExhaustedReachesExpanded | project1/nebulist/bfs/bfs_solver.py:57-73 | when the queue runs dry, the belief set of every plan has been expanded |
| BfsSolver.StartExpand | project1/nebulist/bfs/bfs_solver.py:58-64 | popping a non-singleton front sets up the invariant of the action loop |
| BfsSolver.SkipSeen | project1/nebulist/bfs/bfs_solver.py:66-69 | an already visited successor is skipped without breaking the invariant |
| BfsSolver.PushNew | project1/nebulist/bfs/bfs_solver.py:66-71 | enqueuing a new successor with the extended plan keeps the queue ordered, shortest-first and earliest-first |
| BfsSolver.SmallerPlanSeen | project1/nebulist/bfs/bfs_solver.py:65-71 | the belief set of every plan before the one being pushed is already visited, so the pushed plan is the first to reach its set |
| BfsSolver.FinishExpand | project1/nebulist/bfs/bfs_solver.py:65-71 | after all four actions the front counts as expanded and the search invariant holds again |
| BfsSolver.QueueSnoc | project1/nebulist/bfs/bfs_solver.py:71 | appending an entry that meets the ordering conditions keeps the queue invariant |
| BfsSolver.QueueTail | project1/nebulist/bfs/bfs_solver.py:58 | `popleft` keeps the queue invariant |
| BfsSolver.ExpandFront | project1/nebulist/bfs/bfs_solver.py:65-71 | the loop over the four actions enqueues exactly the unvisited successors in action order and only ever grows the visited set |
| BfsSolver.FindOptimalSequence | project1/nebulist/bfs/bfs_solver.py:46-73 | terminates. It returns a plan that localizes all possible positions, or `[]` when none does. No shorter plan and no earlier plan of its length localizes. A singleton start gives `[]` |
| BfsSolver.Solve | project1/nebulist/bfs/bfs_solver.py:75-77 | the same soundness and optimality as `find_optimal_sequence` |
| BfsSolver.LeftIsFirstStep | project1/nebulist/setup/types.py:5-8 | among one-step plans, `[LEFT]` comes first |
| BfsSolver.OneByThreeStarts | project1/nebulist/bfs/bfs_solver.py:18-25 | on the row `[OPEN, OPEN, BLOCKED]` the possible positions are the two open cells |
| BfsSolver.OneByThreeLeft | project1/nebulist/bfs/bfs_solver.py:27-44 | on that row one step LEFT leaves a single possible cell |
| BfsSolver.LocalizeOneByThree | project1/nebulist/bfs/bfs_solver.py:46-73 | on that row the search returns exactly `[LEFT]` |
| AStar.ManhattanDistance | project1/nebulist/astar/solver.py:116-117 | the distance is a natural number and is zero iff the two points are equal |
| AStar.ManhattanSymmetric | project1/nebulist/astar/solver.py:116-117 | the distance is symmetric |
| AStar.ManhattanTriangle | project1/nebulist/astar/solver.py:116-117 | the distance obeys the triangle inequality |
| AStar.StepChangesDistanceByOne | project1/nebulist/astar/solver.py:51-54 | one action step changes the distance to a fixed goal by exactly one, so the heuristic is consistent |
| AStar.ManhattanAdmissible | project1/nebulist/astar/solver.py:51-54 | a plan of n steps moves at most n in Manhattan distance, so the heuristic never overestimates |
| AStar.ValidMove | project1/nebulist/astar/solver.py:87-91 | `valid_move` accepts exactly the cells that `get_all_possible_positions` (project1/nebulist/bfs/bfs_solver.py:18-25) collects as possible robot positions |
| AStar.ValidMoveIsDest | project1/nebulist/astar/solver.py:87-91 | `valid_move` accepts a step iff the belief update moves the robot there |
| AStar.SetRandomDeadEndGoal | project1/nebulist/astar/solver.py:93-103 | the goal is a `DeadEnd`, the test of astar/solver.py:94-99: an OPEN cell with exactly one OPEN neighbour. It fails with `NoDeadEnd` iff no such cell exists |
| AStar.DeadEndGoalCovers | project1/nebulist/astar/solver.py:93-103 | every dead end can be drawn as the goal |
| AStar.GetRandomRobot | project1/nebulist/astar/solver.py:105-114 | the start is a ROBOT cell; it fails with `NoRobot` iff there is none |
| AStar.RandomRobotCovers | project1/nebulist/astar/solver.py:105-114 | every ROBOT cell can be drawn |

## Left out

- `AStarSolver.search` and `AStarSolver.solve` (project1/nebulist/astar/solver.py:19-85) are not part of this model. As written they fail or never stop:
  - `dist_from_start[child]` is read before `child` is inserted;
  - `prev` is keyed by pairs but looked up with triples;
  - the loop condition calls `reached_single_robot_space`, which `grid.py` does not define.
- `bfs_solver.py:8` and `astar/solver.py:5` import `reached_single_robot_space` from `grid.py`, which does not define it, so both modules fail at import as written. The model treats the imports as absent.
- `main.py`, `cli.py`, `debug.py`, `io.py` and `Cell.__str__` are not part of this model. They are command-line parsing, seeding, console rendering, and a legacy integer-coded copy of the carving loop.
- Randomness is not modelled as probability:
  - `random.random` heap keys become the arbitrary pop order `order`;
  - `randrange` and `random.choice` become input indices.
  No property depends on the distribution.
- Carve: when `order` is shorter than the number of pops, the remaining pops take the first work-list entry. Every property holds for every order.
- Layout.GenerateShipLayout: the tree shape and connectivity are stated only for an input grid of walls, which is how `generate_grid` feeds it. On other grids only the cell-wise properties are stated.
- Every row of a grid is assumed to have the same length (`Rectangular`). The source reads the width from `len(grid[0])` and never checks the other rows, and every grid it builds is d x d.
- Mutation in place (`grid[r][c] = ...` in `move`, `fill_open_with_robot` and `generate_ship_layout`) is modelled as returning a new grid. `MoveGrid` keeps the snapshot-then-overwrite loop of `move`.
- `Cell` having exactly three variants is the `Cell` datatype itself and needs no lemma.
- The `Cell.GOAL` test in `move` is modelled as skipping BLOCKED cells only, as described above.
- `move` and the search read `len(grid[0])` unguarded, so `Mover.Move`, `Mover.MoveGrid`, `BfsSolver.FindOptimalSequence`, `BfsSolver.Solve`, `Belief.MoveAll` and every member built on them require a grid with at least one row, as the code does.
