/** The simultaneous mover: one action applied to every robot at once. */
module Mover {
  import opened Types
  import opened Utils

  /** The next value of cell `p`, read from the snapshot `g` only.
      `move` also skips cells equal to `Cell.GOAL`, a variant `Cell`
      does not have (evaluating that test raises `AttributeError`); with the
      three real variants, only BLOCKED cells are skipped. */
  function NextCell(g: Grid, a: Action, p: Pos): Cell
    requires Rectangular(g) && InBounds(g, p)
  {
    if At(g, p) == Blocked then Blocked
    else
      var behind := (p.0 - Delta(a).0, p.1 - Delta(a).1);
      var ahead := (p.0 + Delta(a).0, p.1 + Delta(a).1);
      var incoming := InBounds(g, behind) && At(g, behind) == Robot;
      var hitWall := At(g, p) == Robot && (!InBounds(g, ahead) || At(g, ahead) == Blocked);
      if incoming || hitWall then Robot else Open
  }

  /** `move(grid, a)`: every cell recomputed from the same snapshot. Walls
      stay where they are and the shape is kept. */
  function Move(g: Grid, a: Action): (h: Grid)
    requires Rectangular(g) && |g| > 0
    ensures SameWalls(g, h) && |h| > 0
    ensures forall p {:trigger At(h, p)} :: InBounds(g, p) ==> At(h, p) == NextCell(g, a, p)
  {
    seq(|g|, r requires 0 <= r < |g| =>
      seq(Cols(g), c requires 0 <= c < Cols(g) => NextCell(g, a, (r, c))))
  }

  /** The loop of `move` as written: copy the grid, then visit every cell in
      row-major order, skip walls and overwrite the rest with a value read
      from the copy. It computes `Move`. */
  method MoveGrid(grid: Grid, a: Action) returns (out: Grid)
    requires Rectangular(grid) && |grid| > 0
    ensures out == Move(grid, a)
  {
    var orig := grid;
    out := grid;
    var rows, cols := |grid|, Cols(grid);
    for r := 0 to rows
      invariant Rectangular(out) && SameShape(out, orig)
      invariant forall p {:trigger At(out, p)} :: InBounds(orig, p) && p.0 < r ==> At(out, p) == NextCell(orig, a, p)
      invariant forall p {:trigger At(out, p)} :: InBounds(orig, p) && p.0 >= r ==> At(out, p) == At(orig, p)
    {
      for c := 0 to cols
        invariant Rectangular(out) && SameShape(out, orig)
        invariant forall p {:trigger At(out, p)} :: InBounds(orig, p) && (p.0 < r || (p.0 == r && p.1 < c)) ==> At(out, p) == NextCell(orig, a, p)
        invariant forall p {:trigger At(out, p)} :: InBounds(orig, p) && (p.0 > r || (p.0 == r && p.1 >= c)) ==> At(out, p) == At(orig, p)
      {
        var cell := orig[r][c];
        if cell == Blocked {
          continue;
        }
        out := SetCell(out, (r, c), NextCell(orig, a, (r, c)));
      }
    }
    SameGridByCells(out, Move(orig, a));
  }

  /** When no robot can advance, nothing moves: each robot is halted by a
      wall or the edge, and no open cell has a robot behind it. */
  lemma MoveFixedWhenStuck(g: Grid, a: Action)
    requires Rectangular(g) && |g| > 0
    requires forall p :: p in CellsOf(g, Robot) ==> !Passable(g, Step(p, a))
    ensures Move(g, a) == g
  {
    var h := Move(g, a);
    forall p | InBounds(g, p)
      ensures At(h, p) == At(g, p)
    {
      NextCellWhenStuck(g, a, p);
    }
    SameGridByCells(g, h);
  }

  /** One cell of `MoveFixedWhenStuck`. */
  lemma NextCellWhenStuck(g: Grid, a: Action, p: Pos)
    requires Rectangular(g) && InBounds(g, p)
    requires forall p :: p in CellsOf(g, Robot) ==> !Passable(g, Step(p, a))
    ensures NextCell(g, a, p) == At(g, p)
  {
    var behind := (p.0 - Delta(a).0, p.1 - Delta(a).1);
    if InBounds(g, behind) && At(g, behind) == Robot {
      // the robot behind `p` is stuck, so `p` itself is a wall
      assert behind in CellsOf(g, Robot);
    }
    if At(g, p) == Robot {
      assert p in CellsOf(g, Robot);
    }
  }

  /** A grid without robots is left as it is. */
  lemma MoveWithoutRobots(g: Grid, a: Action)
    requires Rectangular(g) && |g| > 0
    requires CellsOf(g, Robot) == {}
    ensures Move(g, a) == g
  {
    MoveFixedWhenStuck(g, a);
  }

  /** Grids of one shape that agree on every cell are equal. */
  lemma SameGridByCells(g: Grid, h: Grid)
    requires Rectangular(g) && Rectangular(h) && SameShape(g, h)
    requires forall p :: InBounds(g, p) ==> At(h, p) == At(g, p)
    ensures g == h
  {
    forall r | 0 <= r < |g|
      ensures g[r] == h[r]
    {
      forall c | 0 <= c < |g[r]|
        ensures g[r][c] == h[r][c]
      {
        assert At(h, (r, c)) == At(g, (r, c));
      }
    }
  }
}
