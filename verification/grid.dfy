/** Building blocks of ship generation: the all-wall grid, the open-neighbour
    test, turning open cells into robots, and picking an open goal. */
module ShipGrid {
  import opened Types
  import opened Wrappers
  import opened Utils

  /** `generate_grid(d)`: a d-by-d grid of walls. A non-positive `d` gives
      the empty grid, as `range(d)` is then empty. */
  function GenerateGrid(d: int): (g: Grid)
    ensures Rectangular(g)
    ensures |g| == (if d > 0 then d else 0) && Cols(g) == |g|
    ensures forall p :: InBounds(g, p) ==> At(g, p) == Blocked
  {
    var n := if d > 0 then d else 0;
    seq(n, _ => seq(n, _ => Blocked))
  }

  /** Every cell of the grid is a wall. */
  ghost predicate AllBlocked(g: Grid)
    requires Rectangular(g)
  {
    forall p :: InBounds(g, p) ==> At(g, p) == Blocked
  }

  /** `p` is an in-bounds OPEN cell. */
  predicate IsOpen(g: Grid, p: Pos)
    requires Rectangular(g)
  {
    InBounds(g, p) && At(g, p) == Open
  }

  /** The number of OPEN cells among `Step(p, Actions[i])`, ..., `Step(p, Actions[3])`. */
  function OpenNeighbourCountFrom(g: Grid, p: Pos, i: nat): nat
    requires Rectangular(g) && i <= |Actions|
    decreases |Actions| - i
  {
    if i == |Actions| then 0
    else (if IsOpen(g, Step(p, Actions[i])) then 1 else 0) + OpenNeighbourCountFrom(g, p, i + 1)
  }

  /** `has_one_open_neighbor`: exactly one of the four orthogonal neighbours
      is in bounds and OPEN; ROBOT and BLOCKED neighbours do not count, nor
      do neighbours off the grid. */
  function HasOneOpenNeighbour(g: Grid, p: Pos): (b: bool)
    requires Rectangular(g)
    ensures b <==> exists a :: IsOpen(g, Step(p, a)) && forall a' :: IsOpen(g, Step(p, a')) ==> a' == a
  {
    OneOpenNeighbourIff(g, p);
    OpenNeighbourCountFrom(g, p, 0) == 1
  }

  /** The count is one exactly when a single direction leads to an OPEN cell. */
  lemma OneOpenNeighbourIff(g: Grid, p: Pos)
    requires Rectangular(g)
    ensures OpenNeighbourCountFrom(g, p, 0) == 1
        <==> exists a :: IsOpen(g, Step(p, a)) && forall a' :: IsOpen(g, Step(p, a')) ==> a' == a
  {
    OpenNeighbourCountUnfold(g, p);
    if OpenNeighbourCountFrom(g, p, 0) == 1 {
      OneCountHasNeighbour(g, p);
    }
    if exists a :: IsOpen(g, Step(p, a)) && forall a' :: IsOpen(g, Step(p, a')) ==> a' == a {
      var a :| IsOpen(g, Step(p, a)) && forall a' :: IsOpen(g, Step(p, a')) ==> a' == a;
      OnlyNeighbourCountsOne(g, p, a);
    }
  }

  /** The count written out over the four directions. */
  lemma OpenNeighbourCountUnfold(g: Grid, p: Pos)
    requires Rectangular(g)
    ensures OpenNeighbourCountFrom(g, p, 0)
         == (if IsOpen(g, Step(p, Left)) then 1 else 0) + (if IsOpen(g, Step(p, Right)) then 1 else 0)
          + (if IsOpen(g, Step(p, Up)) then 1 else 0) + (if IsOpen(g, Step(p, Down)) then 1 else 0)
  {
    assert OpenNeighbourCountFrom(g, p, 3) == (if IsOpen(g, Step(p, Down)) then 1 else 0);
    assert OpenNeighbourCountFrom(g, p, 2) == (if IsOpen(g, Step(p, Up)) then 1 else 0) + OpenNeighbourCountFrom(g, p, 3);
    assert OpenNeighbourCountFrom(g, p, 1) == (if IsOpen(g, Step(p, Right)) then 1 else 0) + OpenNeighbourCountFrom(g, p, 2);
  }

  lemma OneCountHasNeighbour(g: Grid, p: Pos)
    requires Rectangular(g) && OpenNeighbourCountFrom(g, p, 0) == 1
    ensures exists a :: IsOpen(g, Step(p, a)) && forall a' :: IsOpen(g, Step(p, a')) ==> a' == a
  {
    OpenNeighbourCountUnfold(g, p);
    var l, r, u := IsOpen(g, Step(p, Left)), IsOpen(g, Step(p, Right)), IsOpen(g, Step(p, Up));
    var a := if l then Left else if r then Right else if u then Up else Down;
    assert IsOpen(g, Step(p, a));
    forall a' | IsOpen(g, Step(p, a'))
      ensures a' == a
    {
    }
  }

  lemma OnlyNeighbourCountsOne(g: Grid, p: Pos, a: Action)
    requires Rectangular(g) && IsOpen(g, Step(p, a))
    requires forall a' :: IsOpen(g, Step(p, a')) ==> a' == a
    ensures OpenNeighbourCountFrom(g, p, 0) == 1
  {
    OpenNeighbourCountUnfold(g, p);
    assert IsOpen(g, Step(p, Left)) ==> a == Left;
    assert IsOpen(g, Step(p, Right)) ==> a == Right;
    assert IsOpen(g, Step(p, Up)) ==> a == Up;
    assert IsOpen(g, Step(p, Down)) ==> a == Down;
  }

  /** With exactly one open neighbour, any open neighbour is that one. */
  lemma OnlyOpenNeighbour(g: Grid, p: Pos, a: Action, b: Action)
    requires Rectangular(g) && HasOneOpenNeighbour(g, p)
    requires IsOpen(g, Step(p, a)) && IsOpen(g, Step(p, b))
    ensures a == b
  {
  }

  /** The OPEN cells of `g` in row-major order. */
  function OpenCells(g: Grid): (ps: seq<Pos>)
    requires Rectangular(g)
    ensures forall p :: p in ps <==> IsOpen(g, p)
    ensures StrictlyRowMajor(ps)
  {
    Listing(g, p => IsOpen(g, p))
  }

  /** `set_random_goal_cell`: an OPEN cell drawn by the random index `k`,
      or `NoOpenCells` when there is none. The grid is not changed. */
  function SetRandomGoalCell(g: Grid, k: nat): (r: Result<Pos>)
    requires Rectangular(g)
    ensures r.Ok? ==> IsOpen(g, r.value)
    ensures r.Err? <==> CellsOf(g, Open) == {}
    ensures r.Err? ==> r.error == NoOpenCells
  {
    var open := OpenCells(g);
    if |open| == 0 then
      assert forall p :: p in CellsOf(g, Open) ==> p in open;
      Err(NoOpenCells)
    else
      assert open[0] in CellsOf(g, Open);
      Ok(Choose(open, k))
  }

  /** Every OPEN cell can be drawn as the goal. */
  lemma GoalCellCovers(g: Grid, p: Pos)
    requires Rectangular(g) && IsOpen(g, p)
    ensures exists k: nat :: SetRandomGoalCell(g, k) == Ok(p)
  {
    var open := OpenCells(g);
    assert p in open;
    var i :| 0 <= i < |open| && open[i] == p;
    ChooseCovers(open, i);
    assert SetRandomGoalCell(g, i) == Ok(p);
  }

  /** `fill_open_with_robot`: every OPEN cell becomes ROBOT; walls and robots
      are kept. Afterwards nothing is OPEN, and the robots are exactly the
      cells that were OPEN or ROBOT. */
  function FillOpenWithRobot(g: Grid): (h: Grid)
    requires Rectangular(g)
    ensures SameWalls(g, h)
    ensures CellsOf(h, Open) == {}
    ensures CellsOf(h, Robot) == CellsOf(g, Robot) + CellsOf(g, Open)
  {
    var h := seq(|g|, r requires 0 <= r < |g| =>
      seq(Cols(g), c requires 0 <= c < Cols(g) => if g[r][c] == Open then Robot else g[r][c]));
    assert forall p :: InBounds(g, p) ==> At(h, p) == (if At(g, p) == Open then Robot else At(g, p));
    h
  }

  /** Filling twice is filling once. */
  lemma FillIdempotent(g: Grid)
    requires Rectangular(g)
    ensures FillOpenWithRobot(FillOpenWithRobot(g)) == FillOpenWithRobot(g)
  {
    var h := FillOpenWithRobot(g);
    var h2 := FillOpenWithRobot(h);
    forall r | 0 <= r < |h|
      ensures h2[r] == h[r]
    {
      forall c | 0 <= c < |h[r]|
        ensures h2[r][c] == h[r][c]
      {
      }
    }
  }
}
