/** Grids, bounds, and the row-major scans and random picks built on them. */
module Utils {
  import opened Types
  import opened Wrappers

  /** A grid is a list of rows; row 0 is the top row. */
  type Grid = seq<seq<Cell>>

  /** The number of columns, read from the first row as the simulator does. */
  function Cols(g: Grid): nat {
    if |g| == 0 then 0 else |g[0]|
  }

  /** Every row is as long as the first one. */
  predicate Rectangular(g: Grid) {
    forall i :: 0 <= i < |g| ==> |g[i]| == Cols(g)
  }

  /** Two grids have the same number of rows and columns. */
  predicate SameShape(g: Grid, h: Grid) {
    |g| == |h| && Cols(g) == Cols(h)
  }

  /** `p` names a cell of `g`. The row test comes first and short-circuits,
      so an empty grid has no in-bounds cell instead of failing on `g[0]`. */
  predicate InBounds(g: Grid, p: Pos) {
    0 <= p.0 < |g| && 0 <= p.1 < |g[0]|
  }

  /** Bounds depend on the dimensions only, never on the cells. */
  lemma InBoundsByShape(g: Grid, h: Grid, p: Pos)
    requires SameShape(g, h)
    ensures InBounds(g, p) <==> InBounds(h, p)
    ensures InBounds(g, p) <==> 0 <= p.0 < |g| && 0 <= p.1 < Cols(g)
  {
  }

  /** The cell at `p`. */
  function At(g: Grid, p: Pos): Cell
    requires Rectangular(g) && InBounds(g, p)
  {
    g[p.0][p.1]
  }

  /** A robot may stand on `p`: it is on the grid and not a wall. */
  predicate Passable(g: Grid, p: Pos)
    requires Rectangular(g)
  {
    InBounds(g, p) && At(g, p) != Blocked
  }

  /** Two rectangular grids of the same shape with their walls in the same places. */
  ghost predicate SameWalls(g: Grid, h: Grid) {
    && Rectangular(g) && Rectangular(h) && SameShape(g, h)
    && forall p {:trigger At(h, p)} :: InBounds(g, p) ==> (At(g, p) == Blocked <==> At(h, p) == Blocked)
  }

  lemma SameWallsTransitive(g: Grid, h: Grid, k: Grid)
    requires SameWalls(g, h) && SameWalls(h, k)
    ensures SameWalls(g, k)
  {
    forall p | InBounds(g, p)
      ensures At(g, p) == Blocked <==> At(k, p) == Blocked
    {
      assert At(h, p) == Blocked <==> At(k, p) == Blocked;
    }
  }

  lemma SameWallsSymmetric(g: Grid, h: Grid)
    requires SameWalls(g, h)
    ensures SameWalls(h, g)
  {
    forall p | InBounds(h, p)
      ensures At(h, p) == Blocked <==> At(g, p) == Blocked
    {
      assert At(h, p) == Blocked <==> At(g, p) == Blocked;
    }
  }

  /** Passability only depends on where the walls are. */
  lemma PassableByWalls(g: Grid, h: Grid, p: Pos)
    requires SameWalls(g, h)
    ensures Passable(g, p) <==> Passable(h, p)
  {
    if InBounds(g, p) {
      assert At(g, p) == Blocked <==> At(h, p) == Blocked;
    }
  }

  /** `g` with the cell at `p` replaced by `v`. */
  function SetCell(g: Grid, p: Pos, v: Cell): (h: Grid)
    requires Rectangular(g) && InBounds(g, p)
    ensures Rectangular(h) && SameShape(g, h)
    ensures At(h, p) == v
    ensures forall q :: InBounds(g, q) && q != p ==> At(h, q) == At(g, q)
  {
    g[p.0 := g[p.0][p.1 := v]]
  }

  /** The set of in-bounds cells holding `v`. */
  function CellsOf(g: Grid, v: Cell): (s: set<Pos>)
    requires Rectangular(g)
    ensures forall p {:trigger p in s} :: p in s <==> InBounds(g, p) && At(g, p) == v
  {
    set r, c | 0 <= r < |g| && 0 <= c < Cols(g) && g[r][c] == v :: (r, c)
  }

  /** Writing `v` at `p` moves `p` into the cells holding `v` and out of
      every other class. */
  lemma CellsOfSetCell(g: Grid, p: Pos, v: Cell, w: Cell)
    requires Rectangular(g) && InBounds(g, p)
    ensures CellsOf(SetCell(g, p, v), w) == if w == v then CellsOf(g, w) + {p} else CellsOf(g, w) - {p}
  {
    var h := SetCell(g, p, v);
    forall q
      ensures q in CellsOf(h, w) <==> q in (if w == v then CellsOf(g, w) + {p} else CellsOf(g, w) - {p})
    {
      InBoundsByShape(g, h, q);
    }
  }

  /** The cells of a rectangle of `n` rows and `m` columns. */
  ghost function Box(n: nat, m: nat): set<Pos> {
    set r, c | 0 <= r < n && 0 <= c < m :: (r, c)
  }

  /** Row `r` of a rectangle `m` columns wide. */
  ghost function BoxRow(r: int, m: nat): set<Pos> {
    set c | 0 <= c < m :: (r, c)
  }

  lemma {:induction false} BoxRowSize(r: int, m: nat)
    ensures |BoxRow(r, m)| == m
    decreases m
  {
    if m > 0 {
      BoxRowSize(r, m - 1);
      assert BoxRow(r, m) == BoxRow(r, m - 1) + {(r, m - 1)};
    }
  }

  lemma {:induction false} BoxSize(n: nat, m: nat)
    ensures |Box(n, m)| == n * m
    decreases n
  {
    if n > 0 {
      BoxSize(n - 1, m);
      BoxRowSize(n - 1, m);
      assert Box(n, m) == Box(n - 1, m) + BoxRow(n - 1, m);
      assert Box(n - 1, m) * BoxRow(n - 1, m) == {};
      MulPred(n, m);
    }
  }

  lemma MulPred(n: nat, m: nat)
    requires n > 0
    ensures n * m == (n - 1) * m + m
  {
  }

  /** A grid holds `v` in fewer than rows x cols cells when some cell
      holds something else. */
  lemma CellsOfBound(g: Grid, v: Cell, p: Pos)
    requires Rectangular(g) && InBounds(g, p) && At(g, p) != v
    ensures |CellsOf(g, v)| < |g| * Cols(g)
  {
    var s, b := CellsOf(g, v), Box(|g|, Cols(g));
    assert s + {p} <= b;
    assert b == (s + {p}) + (b - (s + {p}));
    BoxSize(|g|, Cols(g));
  }

  /** `pick_random_cell`: `randrange(rows), randrange(cols)`, with the two
      random draws supplied as `choice` and reduced into range. Fails on an
      empty grid (`g[0]`) or a grid of empty rows (`randrange(0)`). */
  function PickCell(g: Grid, choice: Pos): (r: Result<Pos>)
    ensures r.Ok? <==> |g| > 0 && Cols(g) > 0
    ensures r.Ok? ==> InBounds(g, r.value)
    ensures r.Err? ==> r.error == EmptyGrid
  {
    if |g| == 0 || Cols(g) == 0 then Err(EmptyGrid)
    else Ok((choice.0 % |g|, choice.1 % Cols(g)))
  }

  /** Every cell of the grid is a possible pick. */
  lemma PickCellCovers(g: Grid, p: Pos)
    requires InBounds(g, p)
    ensures PickCell(g, p) == Ok(p)
  {
    ModSmall(p.0, |g|);
    ModSmall(p.1, Cols(g));
  }

  lemma ModSmall(x: int, n: int)
    requires 0 <= x < n
    ensures x % n == x
  {
  }

  /** Row-major order: by row, then by column. */
  predicate Before(p: Pos, q: Pos) {
    p.0 < q.0 || (p.0 == q.0 && p.1 < q.1)
  }

  /** The positions of `ps` are in strictly increasing row-major order, so
      none appears twice. */
  predicate StrictlyRowMajor(ps: seq<Pos>) {
    forall i, k :: 0 <= i < k < |ps| ==> Before(ps[i], ps[k])
  }

  /** Cells `(r, j)` with `c <= j` that `keep` selects, left to right. */
  function ScanRow(g: Grid, keep: Pos -> bool, r: int, c: nat): (ps: seq<Pos>)
    requires c <= Cols(g)
    ensures forall i :: 0 <= i < |ps| ==> ps[i].0 == r && c <= ps[i].1 < Cols(g) && keep(ps[i])
    ensures forall j :: c <= j < Cols(g) && keep((r, j)) ==> (r, j) in ps
    ensures StrictlyRowMajor(ps)
    decreases Cols(g) - c
  {
    if c == Cols(g) then []
    else
      var head := if keep((r, c)) then [(r, c)] else [];
      var rest := ScanRow(g, keep, r, c + 1);
      RowMajorAppend(head, rest);
      head + rest
  }

  /** Cells in rows `r` and below that `keep` selects, in row-major order. */
  function ScanRows(g: Grid, keep: Pos -> bool, r: nat): (ps: seq<Pos>)
    requires r <= |g|
    ensures forall i :: 0 <= i < |ps| ==> r <= ps[i].0 < |g| && 0 <= ps[i].1 < Cols(g) && keep(ps[i])
    ensures forall p: Pos :: r <= p.0 < |g| && 0 <= p.1 < Cols(g) && keep(p) ==> p in ps
    ensures StrictlyRowMajor(ps)
    decreases |g| - r
  {
    if r == |g| then []
    else
      var row := ScanRow(g, keep, r, 0);
      var rest := ScanRows(g, keep, r + 1);
      assert forall p: Pos :: r <= p.0 < |g| && 0 <= p.1 < Cols(g) && keep(p) ==> p in row + rest by {
        forall p: Pos | r <= p.0 < |g| && 0 <= p.1 < Cols(g) && keep(p)
          ensures p in row + rest
        {
          if p.0 == r {
            assert (r, p.1) in row;
          } else {
            assert p in rest;
          }
        }
      }
      RowMajorAppend(row, rest);
      row + rest
  }

  /** Two row-major runs, the first wholly before the second, concatenate
      into one. */
  lemma RowMajorAppend(a: seq<Pos>, b: seq<Pos>)
    requires StrictlyRowMajor(a) && StrictlyRowMajor(b)
    requires forall i, k :: 0 <= i < |a| && 0 <= k < |b| ==> Before(a[i], b[k])
    ensures StrictlyRowMajor(a + b)
  {
    forall i, k | 0 <= i < k < |a + b|
      ensures Before((a + b)[i], (a + b)[k])
    {
      if k < |a| {
        assert (a + b)[i] == a[i] && (a + b)[k] == a[k];
      } else if i < |a| {
        assert (a + b)[i] == a[i] && (a + b)[k] == b[k - |a|];
      } else {
        assert (a + b)[i] == b[i - |a|] && (a + b)[k] == b[k - |a|];
      }
    }
  }

  /** The list comprehension `[(r, c) for r in range(rows) for c in range(cols) if keep]`:
      exactly the in-bounds cells `keep` selects, each once, in row-major order. */
  function Listing(g: Grid, keep: Pos -> bool): (ps: seq<Pos>)
    ensures forall p :: p in ps <==> InBounds(g, p) && keep(p)
    ensures StrictlyRowMajor(ps)
  {
    ScanRows(g, keep, 0)
  }

  /** `random.choice(ps)` with the random index supplied as `k`. */
  function Choose(ps: seq<Pos>, k: nat): (p: Pos)
    requires |ps| > 0
    ensures p in ps
  {
    ps[k % |ps|]
  }

  /** Every element of the list is a possible choice. */
  lemma ChooseCovers(ps: seq<Pos>, i: nat)
    requires i < |ps|
    ensures Choose(ps, i) == ps[i]
  {
  }
}
