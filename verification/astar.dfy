/** The pure helpers of the A* solver: its heuristic, its move test, and
    its random picks of a goal and a start. */
module AStar {
  import opened Types
  import opened Wrappers
  import opened Utils
  import opened ShipGrid
  import opened Belief

  /** `manhattan_distance(a, b)`. */
  function ManhattanDistance(a: Pos, b: Pos): (d: nat)
    ensures d == 0 <==> a == b
  {
    Abs(a.0 - b.0) + Abs(a.1 - b.1)
  }

  lemma ManhattanSymmetric(a: Pos, b: Pos)
    ensures ManhattanDistance(a, b) == ManhattanDistance(b, a)
  {
  }

  lemma ManhattanTriangle(a: Pos, b: Pos, c: Pos)
    ensures ManhattanDistance(a, c) <= ManhattanDistance(a, b) + ManhattanDistance(b, c)
  {
  }

  /** One action step moves exactly one unit closer to, or farther from, any
      fixed goal, so the heuristic is consistent for unit-cost steps. */
  lemma StepChangesDistanceByOne(p: Pos, a: Action, goal: Pos)
    ensures var d, d' := ManhattanDistance(p, goal), ManhattanDistance(Step(p, a), goal);
      d' == d + 1 || d' + 1 == d
  {
  }

  /** Where a sequence of steps from `p` ends up, walls ignored. */
  function Follow(p: Pos, plan: seq<Action>): Pos
    decreases |plan|
  {
    if plan == [] then p else Step(Follow(p, plan[..|plan| - 1]), plan[|plan| - 1])
  }

  /** The heuristic never overestimates: reaching the goal from `p` takes at
      least `ManhattanDistance(p, goal)` steps. */
  lemma {:induction false} ManhattanAdmissible(p: Pos, plan: seq<Action>)
    ensures ManhattanDistance(p, Follow(p, plan)) <= |plan|
    decreases |plan|
  {
    if plan != [] {
      var prev := plan[..|plan| - 1];
      ManhattanAdmissible(p, prev);
      var q := Follow(p, prev);
      StepChangesDistanceByOne(q, plan[|plan| - 1], p);
      ManhattanSymmetric(p, q);
      ManhattanSymmetric(p, Step(q, plan[|plan| - 1]));
    }
  }

  /** `valid_move(r, c)`: the target is on the grid and not a wall, so the
      accepted targets are the possible robot positions of the
      belief-state solver. */
  function ValidMove(g: Grid, r: int, c: int): (b: bool)
    requires Rectangular(g)
    ensures b <==> (r, c) in AllPossiblePositions(g)
  {
    InBounds(g, (r, c)) && g[r][c] != Blocked
  }

  /** A* and the belief-state solver agree on which steps succeed: a robot
      moves onto its neighbour exactly when `valid_move` accepts it. */
  lemma ValidMoveIsDest(g: Grid, p: Pos, a: Action)
    requires Rectangular(g)
    ensures ValidMove(g, Step(p, a).0, Step(p, a).1) <==> Dest(g, p, a) == Step(p, a)
  {
  }

  /** OPEN cells with exactly one OPEN neighbour. */
  predicate DeadEnd(g: Grid, p: Pos)
    requires Rectangular(g)
  {
    IsOpen(g, p) && HasOneOpenNeighbour(g, p)
  }

  /** `set_random_dead_end_goal`: a dead end drawn by the random index `k`
      becomes the goal; `NoDeadEnd` when there is none. */
  function SetRandomDeadEndGoal(g: Grid, k: nat): (r: Result<Pos>)
    requires Rectangular(g)
    ensures r.Ok? ==> DeadEnd(g, r.value)
    ensures r.Err? <==> forall p :: !DeadEnd(g, p)
    ensures r.Err? ==> r.error == NoDeadEnd
  {
    var ends := Listing(g, p => DeadEnd(g, p));
    if |ends| == 0 then Err(NoDeadEnd)
    else
      assert DeadEnd(g, ends[0]);
      Ok(Choose(ends, k))
  }

  /** Every dead end can be drawn as the goal. */
  lemma DeadEndGoalCovers(g: Grid, p: Pos)
    requires Rectangular(g) && DeadEnd(g, p)
    ensures exists k: nat :: SetRandomDeadEndGoal(g, k) == Ok(p)
  {
    var ends := Listing(g, q => DeadEnd(g, q));
    assert p in ends;
    var i :| 0 <= i < |ends| && ends[i] == p;
    ChooseCovers(ends, i);
    assert SetRandomDeadEndGoal(g, i) == Ok(p);
  }

  /** `get_random_robot`: a ROBOT cell drawn by the random index `k`;
      `NoRobot` when there is none. */
  function GetRandomRobot(g: Grid, k: nat): (r: Result<Pos>)
    requires Rectangular(g)
    ensures r.Ok? ==> r.value in CellsOf(g, Robot)
    ensures r.Err? <==> CellsOf(g, Robot) == {}
    ensures r.Err? ==> r.error == NoRobot
  {
    var robots := Listing(g, p => InBounds(g, p) && At(g, p) == Robot);
    if |robots| == 0 then
      assert forall p :: p in CellsOf(g, Robot) ==> p in robots;
      Err(NoRobot)
    else
      assert robots[0] in CellsOf(g, Robot);
      Ok(Choose(robots, k))
  }

  /** Every ROBOT cell can be drawn. */
  lemma RandomRobotCovers(g: Grid, p: Pos)
    requires Rectangular(g) && p in CellsOf(g, Robot)
    ensures exists k: nat :: GetRandomRobot(g, k) == Ok(p)
  {
    var robots := Listing(g, q => InBounds(g, q) && At(g, q) == Robot);
    assert p in robots;
    var i :| 0 <= i < |robots| && robots[i] == p;
    ChooseCovers(robots, i);
    assert GetRandomRobot(g, i) == Ok(p);
  }
}
