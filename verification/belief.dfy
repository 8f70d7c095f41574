/** Belief states: the sets of cells the robot could be on, and how one
    blind action transforms them. */
module Belief {
  import opened Types
  import opened Utils
  import opened Mover
  import opened ShipGrid

  /** `get_all_possible_positions`: every in-bounds cell that is not a wall,
      ROBOT cells included. */
  function AllPossiblePositions(g: Grid): (s: set<Pos>)
    requires Rectangular(g)
    ensures forall p {:trigger p in s} :: p in s <==> Passable(g, p)
  {
    set r, c | 0 <= r < |g| && 0 <= c < Cols(g) && g[r][c] != Blocked :: (r, c)
  }

  /** After `fill_open_with_robot`, the robots stand exactly on the possible
      positions of the original grid. */
  lemma FillCoversAllPossible(g: Grid)
    requires Rectangular(g)
    ensures CellsOf(FillOpenWithRobot(g), Robot) == AllPossiblePositions(g)
  {
  }

  /** Where a robot on `p` ends up after attempting `a`: the neighbour if a
      robot may stand there, otherwise `p` itself. */
  function Dest(g: Grid, p: Pos, a: Action): (q: Pos)
    requires Rectangular(g)
    ensures q == Step(p, a) <==> Passable(g, Step(p, a))
    ensures q != Step(p, a) ==> q == p
  {
    if Passable(g, Step(p, a)) then Step(p, a) else p
  }

  /** The destinations of a set of robots never outnumber the robots. */
  lemma {:induction false} ImageNoLarger(g: Grid, s: set<Pos>, a: Action)
    requires Rectangular(g)
    ensures |set p | p in s :: Dest(g, p, a)| <= |s|
    decreases |s|
  {
    if s != {} {
      var x :| x in s;
      var rest := s - {x};
      ImageNoLarger(g, rest, a);
      assert (set p | p in s :: Dest(g, p, a)) == (set p | p in rest :: Dest(g, p, a)) + {Dest(g, x, a)};
    }
  }

  /** `simulate_move`: the image of a belief state under one action, which
      never has more cells than the belief state. */
  function SimulateMove(g: Grid, s: set<Pos>, a: Action): (t: set<Pos>)
    requires Rectangular(g)
    ensures |t| <= |s|
  {
    ImageNoLarger(g, s, a);
    set p | p in s :: Dest(g, p, a)
  }

  /** A cell is in the new belief state exactly when some cell of the old
      one leads to it. */
  lemma SimulateMoveIff(g: Grid, s: set<Pos>, a: Action, q: Pos)
    requires Rectangular(g)
    ensures q in SimulateMove(g, s, a) <==> exists p :: p in s && Dest(g, p, a) == q
  {
  }

  /** A belief state of possible positions stays one. */
  lemma SimulateMoveStaysPossible(g: Grid, s: set<Pos>, a: Action)
    requires Rectangular(g) && s <= AllPossiblePositions(g)
    ensures SimulateMove(g, s, a) <= AllPossiblePositions(g)
  {
  }

  /** Belief-state transitions only see where the walls are. */
  lemma SimulateMoveByWalls(g: Grid, h: Grid, s: set<Pos>, a: Action)
    requires SameWalls(g, h)
    ensures SimulateMove(g, s, a) == SimulateMove(h, s, a)
  {
    var tg, th := SimulateMove(g, s, a), SimulateMove(h, s, a);
    forall q | q in tg
      ensures q in th
    {
      SimulateMoveIff(g, s, a, q);
      SimulateMoveIff(h, s, a, q);
      var p :| p in s && Dest(g, p, a) == q;
      PassableByWalls(g, h, Step(p, a));
      assert Dest(h, p, a) == q;
    }
    forall q | q in th
      ensures q in tg
    {
      SimulateMoveIff(g, s, a, q);
      SimulateMoveIff(h, s, a, q);
      var p :| p in s && Dest(h, p, a) == q;
      PassableByWalls(g, h, Step(p, a));
      assert Dest(g, p, a) == q;
    }
  }

  /** The belief state after following `plan` from `s`. */
  function Run(g: Grid, s: set<Pos>, plan: seq<Action>): (t: set<Pos>)
    requires Rectangular(g)
    ensures |t| <= |s|
    decreases |plan|
  {
    if plan == [] then s
    else SimulateMove(g, Run(g, s, plan[..|plan| - 1]), plan[|plan| - 1])
  }

  /** Following a plan from possible positions leads to possible positions. */
  lemma {:induction false} RunStaysPossible(g: Grid, s: set<Pos>, plan: seq<Action>)
    requires Rectangular(g) && s <= AllPossiblePositions(g)
    ensures Run(g, s, plan) <= AllPossiblePositions(g)
    decreases |plan|
  {
    if plan != [] {
      RunStaysPossible(g, s, plan[..|plan| - 1]);
      SimulateMoveStaysPossible(g, Run(g, s, plan[..|plan| - 1]), plan[|plan| - 1]);
    }
  }

  /** `plan` narrows `s` down to a single cell. */
  predicate Localizes(g: Grid, s: set<Pos>, plan: seq<Action>)
    requires Rectangular(g)
  {
    |Run(g, s, plan)| == 1
  }

  lemma {:induction false} RunByWalls(g: Grid, h: Grid, s: set<Pos>, plan: seq<Action>)
    requires SameWalls(g, h)
    ensures Run(g, s, plan) == Run(h, s, plan)
    decreases |plan|
  {
    if plan != [] {
      RunByWalls(g, h, s, plan[..|plan| - 1]);
      SimulateMoveByWalls(g, h, Run(g, s, plan[..|plan| - 1]), plan[|plan| - 1]);
    }
  }

  /** The mover and the belief state agree: after `move`, the ROBOT cells are
      exactly the image of the old ROBOT cells under `simulate_move`. */
  lemma MoveTracksBelief(g: Grid, a: Action)
    requires Rectangular(g) && |g| > 0
    ensures CellsOf(Move(g, a), Robot) == SimulateMove(g, CellsOf(g, Robot), a)
  {
    forall q
      ensures q in CellsOf(Move(g, a), Robot) <==> q in SimulateMove(g, CellsOf(g, Robot), a)
    {
      MoveTracksBeliefAt(g, a, q);
    }
  }

  lemma MoveTracksBeliefAt(g: Grid, a: Action, q: Pos)
    requires Rectangular(g) && |g| > 0
    ensures q in CellsOf(Move(g, a), Robot) <==> q in SimulateMove(g, CellsOf(g, Robot), a)
  {
    var h := Move(g, a);
    SimulateMoveIff(g, CellsOf(g, Robot), a, q);
    if InBounds(g, q) {
      assert At(h, q) == NextCell(g, a, q);
      NextCellRobotIff(g, a, q);
    } else if exists p :: p in CellsOf(g, Robot) && Dest(g, p, a) == q {
      var p :| p in CellsOf(g, Robot) && Dest(g, p, a) == q;
      DestIsNextRobot(g, a, p);
    }
  }

  /** One cell of `MoveTracksBelief`: it becomes ROBOT exactly when some
      robot's destination is that cell. */
  lemma NextCellRobotIff(g: Grid, a: Action, q: Pos)
    requires Rectangular(g) && InBounds(g, q)
    ensures NextCell(g, a, q) == Robot <==> exists p :: p in CellsOf(g, Robot) && Dest(g, p, a) == q
  {
    if NextCell(g, a, q) == Robot {
      NextCellRobotHasSource(g, a, q);
    }
    if exists p :: p in CellsOf(g, Robot) && Dest(g, p, a) == q {
      var p :| p in CellsOf(g, Robot) && Dest(g, p, a) == q;
      DestIsNextRobot(g, a, p);
    }
  }

  lemma NextCellRobotHasSource(g: Grid, a: Action, q: Pos)
    requires Rectangular(g) && InBounds(g, q) && NextCell(g, a, q) == Robot
    ensures exists p :: p in CellsOf(g, Robot) && Dest(g, p, a) == q
  {
    var behind := (q.0 - Delta(a).0, q.1 - Delta(a).1);
    if InBounds(g, behind) && At(g, behind) == Robot {
      assert Step(behind, a) == q;
      assert behind in CellsOf(g, Robot) && Dest(g, behind, a) == q;
    } else {
      assert q in CellsOf(g, Robot) && Dest(g, q, a) == q;
    }
  }

  lemma DestIsNextRobot(g: Grid, a: Action, p: Pos)
    requires Rectangular(g) && p in CellsOf(g, Robot)
    ensures InBounds(g, Dest(g, p, a)) && NextCell(g, a, Dest(g, p, a)) == Robot
  {
    var q := Step(p, a);
    if Passable(g, q) {
      assert (q.0 - Delta(a).0, q.1 - Delta(a).1) == p;
    }
  }

  /** `move` never increases the number of ROBOT cells. */
  lemma MoveNeverAddsRobots(g: Grid, a: Action)
    requires Rectangular(g) && |g| > 0
    ensures |CellsOf(Move(g, a), Robot)| <= |CellsOf(g, Robot)|
  {
    MoveTracksBelief(g, a);
  }

  /** A ROBOT cell after `move` held a robot before, or is one step from one. */
  lemma MoveNoJump(g: Grid, a: Action, q: Pos)
    requires Rectangular(g) && |g| > 0
    requires q in CellsOf(Move(g, a), Robot)
    ensures exists p :: p in CellsOf(g, Robot) && (q == p || q == Step(p, a))
  {
    MoveTracksBelief(g, a);
    SimulateMoveIff(g, CellsOf(g, Robot), a, q);
    var p :| p in CellsOf(g, Robot) && Dest(g, p, a) == q;
  }

  /** The grid after applying `move` once per action of `plan`. */
  function MoveAll(g: Grid, plan: seq<Action>): (h: Grid)
    requires Rectangular(g) && |g| > 0
    ensures SameWalls(g, h) && |h| > 0
    decreases |plan|
  {
    if plan == [] then g
    else
      var h := MoveAll(g, plan[..|plan| - 1]);
      var h' := Move(h, plan[|plan| - 1]);
      SameWallsTransitive(g, h, h');
      h'
  }

  /** Executing a plan with the mover moves the ROBOT cells exactly as the
      belief state predicts. */
  lemma {:induction false} MoveAllTracksRun(g: Grid, plan: seq<Action>)
    requires Rectangular(g) && |g| > 0
    ensures CellsOf(MoveAll(g, plan), Robot) == Run(g, CellsOf(g, Robot), plan)
    decreases |plan|
  {
    if plan != [] {
      var prefix, a := plan[..|plan| - 1], plan[|plan| - 1];
      var h := MoveAll(g, prefix);
      MoveAllTracksRun(g, prefix);
      MoveTracksBelief(h, a);
      SameWallsSymmetric(g, h);
      SimulateMoveByWalls(h, g, CellsOf(h, Robot), a);
    }
  }

  /** A plan that localizes the possible positions, executed on the grid with
      every open cell filled with robots, leaves exactly one ROBOT cell. */
  lemma LocalizingPlanLeavesOneRobot(g: Grid, plan: seq<Action>)
    requires Rectangular(g) && |g| > 0
    requires Localizes(g, AllPossiblePositions(g), plan)
    ensures |CellsOf(MoveAll(FillOpenWithRobot(g), plan), Robot)| == 1
  {
    var f := FillOpenWithRobot(g);
    MoveAllTracksRun(f, plan);
    FillCoversAllPossible(g);
    SameWallsSymmetric(g, f);
    RunByWalls(f, g, AllPossiblePositions(g), plan);
  }
}
