/** `generate_ship_layout`: growing the ship's corridors out of a grid of
    walls. A wall is opened only when exactly one of its neighbours is
    already OPEN, so the OPEN cells grow as a tree rooted at the seed. */
module Layout {
  import opened Types
  import opened Wrappers
  import opened Utils
  import opened ShipGrid

  /** One carving step: `cell` is opened next to the popped cell `parent`. */
  datatype Opening = Opening(cell: Pos, parent: Pos)

  /** The test of `generate_ship_layout` for a neighbour `o.cell` of the
      popped cell `o.parent`, read on the grid as it is at that moment: the
      neighbour is an in-bounds wall with exactly one OPEN neighbour, and the
      popped cell is OPEN and next to it, so that one neighbour is the popped
      cell. */
  predicate ValidOpening(h: Grid, o: Opening)
    requires Rectangular(h)
  {
    && InBounds(h, o.cell) && At(h, o.cell) == Blocked && HasOneOpenNeighbour(h, o.cell)
    && IsOpen(h, o.parent) && Adjacent(o.parent, o.cell)
  }

  /** The grid after the openings of `log`, in order, starting from `start`. */
  function Replay(start: Grid, log: seq<Opening>): (h: Grid)
    requires Rectangular(start)
    ensures Rectangular(h) && SameShape(start, h)
    decreases |log|
  {
    if log == [] then start
    else
      var h := Replay(start, log[..|log| - 1]);
      if InBounds(h, log[|log| - 1].cell) then SetCell(h, log[|log| - 1].cell, Open) else h
  }

  /** Every opening of `log` passed the test when it was made. */
  ghost predicate ValidLog(start: Grid, log: seq<Opening>)
    requires Rectangular(start)
    decreases |log|
  {
    log == [] || (ValidLog(start, log[..|log| - 1]) && ValidOpening(Replay(start, log[..|log| - 1]), log[|log| - 1]))
  }

  /** A log that passed the test stays one when a passing opening is added,
      and replaying it opens that cell. */
  lemma LogSnoc(start: Grid, log: seq<Opening>, o: Opening)
    requires Rectangular(start) && ValidLog(start, log) && ValidOpening(Replay(start, log), o)
    ensures ValidLog(start, log + [o])
    ensures Replay(start, log + [o]) == SetCell(Replay(start, log), o.cell, Open)
  {
    assert (log + [o])[..|log|] == log;
  }

  /** The grid right after the seed is opened. */
  function Seeded(g: Grid, seed: Pos): (h: Grid)
    requires Rectangular(g) && InBounds(g, seed)
    ensures Rectangular(h) && SameShape(g, h)
  {
    SetCell(g, seed, Open)
  }

  /** The cells opened by `generate_ship_layout` after the seed, and the
      popped cell each was opened from. */
  ghost predicate Carved(g: Grid, seed: Pos, log: seq<Opening>, h: Grid)
    requires Rectangular(g)
  {
    InBounds(g, seed) && ValidLog(Seeded(g, seed), log) && h == Replay(Seeded(g, seed), log)
  }

  /** The orthogonal OPEN–OPEN adjacencies, each written once as the pair
      (upper or left cell, lower or right cell). */
  function OpenEdges(h: Grid): (es: set<(Pos, Pos)>)
    requires Rectangular(h)
    ensures forall e {:trigger e in es} :: e in es <==>
      IsOpen(h, e.0) && IsOpen(h, e.1) && (e.1 == Step(e.0, Right) || e.1 == Step(e.0, Down))
  {
    var open := CellsOf(h, Open);
    set p, q | p in open && q in open && (q == Step(p, Right) || q == Step(p, Down)) :: (p, q)
  }

  /** A walk through OPEN cells, each step orthogonal. */
  ghost predicate OpenWalk(h: Grid, w: seq<Pos>)
    requires Rectangular(h)
  {
    && |w| > 0
    && (forall i :: 0 <= i < |w| ==> IsOpen(h, w[i]))
    && (forall i :: 0 <= i < |w| - 1 ==> Adjacent(w[i], w[i + 1]))
  }

  /** An OPEN walk leads from `p` to `q`. */
  ghost predicate Connected(h: Grid, p: Pos, q: Pos)
    requires Rectangular(h)
  {
    exists w :: OpenWalk(h, w) && w[0] == p && w[|w| - 1] == q
  }

  /** `generate_ship_layout(grid)`. The seed is `pick_random_cell(grid)` with
      its random draws given as `choice`; the heap keys are random, so any
      work-list entry may come out next, and the `k`-th pop takes the entry
      at index `order[k]` (reduced into range; 0 once `order` runs out).
      Neighbours are tried in `Action` order, each against the grid as the
      earlier ones left it. The ghost `log` records every opening after the
      seed, and `pushed` every cell pushed onto the heap: the seed, then the
      cell of each opening, so there are at most rows x cols pushes. */
  method GenerateShipLayout(g: Grid, choice: Pos, order: seq<nat>)
    returns (res: Result<Grid>, ghost log: seq<Opening>, ghost pushed: seq<Pos>)
    requires Rectangular(g)
    ensures res.Err? <==> |g| == 0 || Cols(g) == 0
    ensures res.Err? ==> res.error == EmptyGrid
    ensures res.Ok? ==> Carved(g, PickCell(g, choice).value, log, res.value)
    ensures res.Ok? ==> pushed == [PickCell(g, choice).value] + Opened(log)
    ensures res.Ok? ==> |pushed| <= |g| * Cols(g)
    ensures res.Ok? ==> Rectangular(res.value) && SameShape(g, res.value)
    ensures res.Ok? ==> IsOpen(res.value, PickCell(g, choice).value)
    ensures res.Ok? ==> forall p :: InBounds(g, p) && p != PickCell(g, choice).value ==>
      At(res.value, p) == At(g, p) || (At(g, p) == Blocked && At(res.value, p) == Open)
    ensures res.Ok? ==> CellsOf(res.value, Robot) == CellsOf(g, Robot) - {PickCell(g, choice).value}
    ensures res.Ok? && AllBlocked(g) ==> |OpenEdges(res.value)| + 1 == |CellsOf(res.value, Open)|
    ensures res.Ok? && AllBlocked(g) ==> forall p :: IsOpen(res.value, p) ==> Connected(res.value, p, PickCell(g, choice).value)
    ensures res.Ok? && AllBlocked(g) ==> forall n :: InBounds(res.value, n) && At(res.value, n) == Blocked ==>
      !HasOneOpenNeighbour(res.value, n)
  {
    var pick := PickCell(g, choice);
    if pick.Err? {
      return Err(EmptyGrid), [], [];
    }
    var seed := pick.value;
    var grid := SetCell(g, seed, Open);
    grid, log, pushed := Carve(grid, [seed], order);
    res := Ok(grid);
    CarvedProperties(g, seed, log, grid);
    if AllBlocked(g) {
      SeedOnlyPending(g, seed, grid);
    }
  }

  /** The main loop of `generate_ship_layout`, from the grid with the seed
      opened and the seed alone on the work-list: pop the entry `order`
      selects and try its neighbours, until the work-list is empty. The
      result replays the openings made, each of which passed the test, and
      every OPEN cell has had its neighbours tried, except OPEN cells of
      `start` that were never on the work-list. `pushed` lists every cell
      ever put on the work-list: the initial entries, then the cell of each
      opening in order. */
  method Carve(start: Grid, work0: seq<Pos>, order: seq<nat>)
    returns (grid: Grid, ghost log: seq<Opening>, ghost pushed: seq<Pos>)
    requires Rectangular(start) && forall w :: w in work0 ==> IsOpen(start, w)
    ensures Rectangular(grid) && grid == Replay(start, log) && ValidLog(start, log)
    ensures pushed == work0 + Opened(log)
    ensures forall p :: IsOpen(grid, p) ==> Explored(grid, p) || (IsOpen(start, p) && p !in work0)
  {
    grid := start;
    var work := work0;
    log := [];
    pushed := work0;
    var k := 0;
    while work != []
      invariant CarveOk(start, work0, grid, work, log, pushed)
      decreases CellsOf(grid, Blocked), |work|
    {
      var idx := (if k < |order| then order[k] else 0) % |work|;
      grid, work, log, pushed := CarveStep(start, work0, grid, work, log, pushed, idx);
      k := k + 1;
    }
  }

  /** What holds between pops: the grid replays a valid log, `pushed` is
      the initial entries followed by the cells of the openings, pending
      cells are OPEN, and every OPEN cell is pending, explored, or an OPEN
      cell of `start` never on the work-list. */
  ghost predicate CarveOk(start: Grid, work0: seq<Pos>, grid: Grid, work: seq<Pos>, log: seq<Opening>, pushed: seq<Pos>)
    requires Rectangular(start)
  {
    && Rectangular(grid) && grid == Replay(start, log) && ValidLog(start, log)
    && pushed == work0 + Opened(log)
    && (forall w :: w in work ==> IsOpen(grid, w))
    && (forall p :: IsOpen(grid, p) ==> p in work || Explored(grid, p) || (IsOpen(start, p) && p !in work0))
  }

  /** One pass of the loop: pop the entry at `idx` and scan its neighbours.
      Either a wall was opened or the work-list got shorter. */
  method CarveStep(ghost start: Grid, ghost work0: seq<Pos>, grid: Grid, work: seq<Pos>,
                   ghost log: seq<Opening>, ghost pushed: seq<Pos>, idx: nat)
    returns (grid': Grid, work': seq<Pos>, ghost log': seq<Opening>, ghost pushed': seq<Pos>)
    requires Rectangular(start) && CarveOk(start, work0, grid, work, log, pushed) && idx < |work|
    ensures CarveOk(start, work0, grid', work', log', pushed')
    ensures CellsOf(grid', Blocked) < CellsOf(grid, Blocked)
      || (CellsOf(grid', Blocked) == CellsOf(grid, Blocked) && |work'| < |work|)
  {
    var cell := work[idx];
    var rest := work[..idx] + work[idx + 1..];
    PopKeeps(work, idx);
    grid', work', log' := OpenAround(start, grid, rest, log, cell);
    PushedStep(work0, log, log', rest, work');
    pushed' := pushed + work'[|rest|..];
    PendingAfterScan(start, work0, grid, work, idx, grid', work');
  }

  /** After popping `work[idx]` and scanning it, every OPEN cell is still
      pending, explored, or an OPEN cell of `start` never on the work-list. */
  lemma PendingAfterScan(start: Grid, work0: seq<Pos>, grid0: Grid, work: seq<Pos>, idx: nat, grid: Grid, work': seq<Pos>)
    requires Rectangular(start) && Rectangular(grid0) && Rectangular(grid) && idx < |work|
    requires forall p :: IsOpen(grid0, p) ==> p in work || Explored(grid0, p) || (IsOpen(start, p) && p !in work0)
    requires forall w :: w in work && w != work[idx] ==> w in work[..idx] + work[idx + 1..]
    requires Explored(grid, work[idx])
    requires forall w :: w in work[..idx] + work[idx + 1..] ==> w in work'
    requires forall p :: IsOpen(grid, p) ==> IsOpen(grid0, p) || p in work'
    requires forall p :: Explored(grid0, p) ==> Explored(grid, p)
    ensures forall p :: IsOpen(grid, p) ==> p in work' || Explored(grid, p) || (IsOpen(start, p) && p !in work0)
  {
    forall p | IsOpen(grid, p)
      ensures p in work' || Explored(grid, p) || (IsOpen(start, p) && p !in work0)
    {
      if IsOpen(grid0, p) && p != work[idx] {
        assert p in work || Explored(grid0, p) || (IsOpen(start, p) && p !in work0);
      }
    }
  }

  /** The cells of the openings of `log`, in order. */
  function Opened(log: seq<Opening>): (cells: seq<Pos>)
    ensures |cells| == |log|
  {
    if log == [] then [] else [log[0].cell] + Opened(log[1..])
  }

  /** `Opened` distributes over concatenation. */
  lemma {:induction false} OpenedAppend(a: seq<Opening>, b: seq<Opening>)
    ensures Opened(a + b) == Opened(a) + Opened(b)
  {
    if a == [] {
      assert a + b == b;
    } else {
      assert (a + b)[0] == a[0] && (a + b)[1..] == a[1..] + b;
      OpenedAppend(a[1..], b);
    }
  }

  /** One scan keeps the record of pushes equal to the initial entries
      followed by the cells of the openings. */
  lemma PushedStep(work0: seq<Pos>, log: seq<Opening>, log': seq<Opening>, work: seq<Pos>, work': seq<Pos>)
    requires |log| <= |log'| && log'[..|log|] == log && PushFrame(work, log, work', log')
    ensures (work0 + Opened(log)) + work'[|work|..] == work0 + Opened(log')
  {
    assert log' == log + log'[|log|..];
    OpenedAppend(log, log'[|log|..]);
    assert work'[|work|..] == Opened(log'[|log|..]);
  }

  /** Removing the entry at `idx` keeps every other entry. */
  lemma PopKeeps(work: seq<Pos>, idx: nat)
    requires idx < |work|
    ensures forall w :: w in work && w != work[idx] ==> w in work[..idx] + work[idx + 1..]
  {
    forall w | w in work && w != work[idx]
      ensures w in work[..idx] + work[idx + 1..]
    {
      var j :| 0 <= j < |work| && work[j] == w;
      if j < idx {
        assert (work[..idx] + work[idx + 1..])[j] == w;
      } else {
        assert (work[..idx] + work[idx + 1..])[j - 1] == w;
      }
    }
  }

  /** A wall beside two different OPEN cells: it fails the test now and,
      since OPEN cells stay OPEN, at every later point. Cells that are not
      in-bounds walls are settled too. */
  ghost predicate Settled(h: Grid, n: Pos)
    requires Rectangular(h)
  {
    InBounds(h, n) && At(h, n) == Blocked ==>
      exists a, b :: a != b && IsOpen(h, Step(n, a)) && IsOpen(h, Step(n, b))
  }

  /** All four neighbours of `p` have been tried and none can pass the test. */
  ghost predicate Explored(h: Grid, p: Pos)
    requires Rectangular(h)
  {
    forall a :: Settled(h, Step(p, a))
  }

  /** A settled wall fails `has_one_open_neighbor`. */
  lemma SettledFails(h: Grid, n: Pos)
    requires Rectangular(h) && InBounds(h, n) && At(h, n) == Blocked && Settled(h, n)
    ensures !HasOneOpenNeighbour(h, n)
  {
    var a, b :| a != b && IsOpen(h, Step(n, a)) && IsOpen(h, Step(n, b));
    forall a0 | IsOpen(h, Step(n, a0))
      ensures exists a' :: IsOpen(h, Step(n, a')) && a' != a0
    {
      if a0 == a {
        assert IsOpen(h, Step(n, b)) && b != a0;
      } else {
        assert IsOpen(h, Step(n, a)) && a != a0;
      }
    }
  }

  /** A wall beside the OPEN cell `cell` that fails the test is settled. */
  lemma FailedTestSettles(h: Grid, cell: Pos, a: Action)
    requires Rectangular(h) && IsOpen(h, cell)
    requires !(InBounds(h, Step(cell, a)) && At(h, Step(cell, a)) == Blocked && HasOneOpenNeighbour(h, Step(cell, a)))
    ensures Settled(h, Step(cell, a))
  {
    var n := Step(cell, a);
    if InBounds(h, n) && At(h, n) == Blocked {
      StepBack(cell, a);
      var back := Opposite(a);
      var a' := OtherOpenNeighbour(h, n, back);
      assert back != a' && IsOpen(h, Step(n, back)) && IsOpen(h, Step(n, a'));
    }
  }

  /** A cell with an OPEN neighbour towards `a` that fails the test has an
      OPEN neighbour in some other direction too. */
  lemma OtherOpenNeighbour(h: Grid, n: Pos, a: Action) returns (b: Action)
    requires Rectangular(h) && IsOpen(h, Step(n, a)) && !HasOneOpenNeighbour(h, n)
    ensures b != a && IsOpen(h, Step(n, b))
  {
    assert !forall a' :: IsOpen(h, Step(n, a')) ==> a' == a;
    b :| IsOpen(h, Step(n, b)) && b != a;
  }

  /** Opening a cell keeps every settled cell settled. */
  lemma SettledAfterOpening(h: Grid, m: Pos, n: Pos)
    requires Rectangular(h) && InBounds(h, m) && Settled(h, n)
    ensures Settled(SetCell(h, m, Open), n)
  {
    var h' := SetCell(h, m, Open);
    InBoundsByShape(h, h', n);
    if InBounds(h', n) && At(h', n) == Blocked {
      assert n != m && At(h, n) == Blocked;
      var a, b :| a != b && IsOpen(h, Step(n, a)) && IsOpen(h, Step(n, b));
      InBoundsByShape(h, h', Step(n, a));
      InBoundsByShape(h, h', Step(n, b));
      assert IsOpen(h', Step(n, a)) && IsOpen(h', Step(n, b));
    }
  }

  /** Opening a cell keeps every explored cell explored. */
  lemma ExploredAfterOpening(h: Grid, m: Pos, p: Pos)
    requires Rectangular(h) && InBounds(h, m) && Explored(h, p)
    ensures Explored(SetCell(h, m, Open), p)
  {
    forall a
      ensures Settled(SetCell(h, m, Open), Step(p, a))
    {
      SettledAfterOpening(h, m, Step(p, a));
    }
  }

  /** When every OPEN cell is explored, no wall passes the test: the loop
      of `generate_ship_layout` has nothing left to open. */
  lemma ExploredIsMaximal(h: Grid)
    requires Rectangular(h) && forall p :: IsOpen(h, p) ==> Explored(h, p)
    ensures forall n :: InBounds(h, n) && At(h, n) == Blocked ==> !HasOneOpenNeighbour(h, n)
  {
    forall n | InBounds(h, n) && At(h, n) == Blocked
      ensures !HasOneOpenNeighbour(h, n)
    {
      if a :| IsOpen(h, Step(n, a)) {
        var m := Step(n, a);
        StepBack(n, a);
        assert Settled(h, Step(m, Opposite(a)));
        SettledFails(h, n);
      }
    }
  }

  /** Carved from a grid of walls, the seed is the only OPEN cell of the
      start, and it is on the work-list; so every OPEN cell of the result is
      explored and no wall is left that the loop would open. */
  lemma SeedOnlyPending(g: Grid, seed: Pos, h: Grid)
    requires Rectangular(g) && Rectangular(h) && InBounds(g, seed) && AllBlocked(g)
    requires forall p :: IsOpen(h, p) ==> Explored(h, p) || (IsOpen(Seeded(g, seed), p) && p !in [seed])
    ensures forall n :: InBounds(h, n) && At(h, n) == Blocked ==> !HasOneOpenNeighbour(h, n)
  {
    SeedIsTree(g, seed);
    forall p | IsOpen(h, p)
      ensures Explored(h, p)
    {
      if IsOpen(Seeded(g, seed), p) {
        assert p in CellsOf(Seeded(g, seed), Open);
      }
    }
    ExploredIsMaximal(h);
  }

  /** What every carving guarantees: the seed is OPEN, other cells change
      only from wall to OPEN, the robots are those of the input minus the
      seed, and one wall is opened per log entry. Carved out of a grid of
      walls, the OPEN cells form a tree (one adjacency fewer than cells)
      in which every cell reaches the seed. */
  lemma CarvedProperties(g: Grid, seed: Pos, log: seq<Opening>, h: Grid)
    requires Rectangular(g) && Carved(g, seed, log, h)
    ensures Rectangular(h) && SameShape(g, h)
    ensures IsOpen(h, seed)
    ensures forall p :: InBounds(g, p) && p != seed ==> At(h, p) == At(g, p) || (At(g, p) == Blocked && At(h, p) == Open)
    ensures CellsOf(h, Robot) == CellsOf(g, Robot) - {seed}
    ensures |log| + |CellsOf(h, Blocked)| == |CellsOf(Seeded(g, seed), Blocked)|
    ensures |log| + 1 <= |g| * Cols(g)
    ensures AllBlocked(g) ==> |OpenEdges(h)| + 1 == |CellsOf(h, Open)|
    ensures AllBlocked(g) ==> forall p :: IsOpen(h, p) ==> Connected(h, p, seed)
  {
    var start := Seeded(g, seed);
    CellsOfBound(start, Blocked, seed);
    CarvedOnlyOpens(start, log);
    CarvedCounts(start, log);
    CellsOfSetCell(g, seed, Open, Robot);
    forall p | InBounds(g, p)
      ensures p != seed ==> At(h, p) == At(g, p) || (At(g, p) == Blocked && At(h, p) == Open)
      ensures p == seed ==> At(h, p) == Open
    {
      InBoundsByShape(g, start, p);
    }
    if AllBlocked(g) {
      SeedIsTree(g, seed);
      LogKeepsTree(start, log);
      SeedConnected(g, seed);
      LogKeepsConnected(start, seed, log);
    }
  }

  /** The inner loop of `generate_ship_layout`: try the four neighbours of the
      popped OPEN cell in `Action` order, opening and enqueueing each that
      passes the test. Afterwards no neighbour of the popped cell passes the
      test, every newly OPEN cell is enqueued, and explored cells stay
      explored. The BLOCKED cells only shrink, and strictly so unless
      nothing was enqueued. */
  method OpenAround(ghost start: Grid, grid: Grid, work: seq<Pos>, ghost log: seq<Opening>, cell: Pos)
    returns (grid': Grid, work': seq<Pos>, ghost log': seq<Opening>)
    requires Rectangular(start) && grid == Replay(start, log) && ValidLog(start, log)
    requires IsOpen(grid, cell) && forall w :: w in work ==> IsOpen(grid, w)
    ensures Rectangular(grid')
    ensures SameShape(grid, grid')
    ensures forall p :: InBounds(grid, p) && (forall a :: p != Step(cell, a)) ==> At(grid', p) == At(grid, p)
    ensures |log| <= |log'| && log'[..|log|] == log
    ensures forall j :: |log| <= j < |log'| ==> log'[j].parent == cell && exists a :: log'[j].cell == Step(cell, a)
    ensures PushFrame(work, log, work', log')
    ensures grid' == Replay(start, log') && ValidLog(start, log')
    ensures forall w :: w in work' ==> IsOpen(grid', w)
    ensures CellsOf(grid', Blocked) <= CellsOf(grid, Blocked)
    ensures CellsOf(grid', Blocked) == CellsOf(grid, Blocked) ==> work' == work
    ensures forall a :: var n := Step(cell, a);
      InBounds(grid', n) && At(grid', n) == Blocked ==> !HasOneOpenNeighbour(grid', n)
    ensures Explored(grid', cell)
    ensures forall w :: w in work ==> w in work'
    ensures forall p :: IsOpen(grid', p) ==> IsOpen(grid, p) || p in work'
    ensures forall p :: Explored(grid, p) ==> Explored(grid', p)
  {
    grid', work', log' := ScanNeighbours(start, grid, work, log, cell);
    AllTriedExplored(grid', cell);
  }

  /** The inner loop over the four neighbours of `cell`, in `Action` order. */
  method ScanNeighbours(ghost start: Grid, grid: Grid, work: seq<Pos>, ghost log: seq<Opening>, cell: Pos)
    returns (grid': Grid, work': seq<Pos>, ghost log': seq<Opening>)
    requires Rectangular(start) && grid == Replay(start, log) && ValidLog(start, log)
    requires IsOpen(grid, cell) && forall w :: w in work ==> IsOpen(grid, w)
    ensures ScanOk(start, grid, work, log, cell, grid', work', log', |Actions|)
  {
    grid', work', log' := grid, work, log;
    for i := 0 to |Actions|
      invariant ScanOk(start, grid, work, log, cell, grid', work', log', i)
    {
      grid', work', log' := TryNeighbour(start, grid, work, log, cell, grid', work', log', i);
    }
  }

  /** The state of the neighbour scan of `cell` after `i` neighbours. */
  ghost predicate ScanOk(start: Grid, grid: Grid, work: seq<Pos>, log: seq<Opening>, cell: Pos,
                         grid': Grid, work': seq<Pos>, log': seq<Opening>, i: nat)
    requires Rectangular(start) && Rectangular(grid)
  {
    && Rectangular(grid') && AroundOk(start, grid, work, cell, grid', work', log', i)
    && ScanFrame(grid, log, cell, grid', log')
    && PushFrame(work, log, work', log')
  }

  /** One step of the scan: the `i`-th neighbour of `cell` is opened and
      pushed when it is an in-bounds wall with exactly one OPEN neighbour,
      and left alone otherwise. */
  method TryNeighbour(ghost start: Grid, grid: Grid, work: seq<Pos>, ghost log: seq<Opening>, cell: Pos,
                      grid': Grid, work': seq<Pos>, ghost log': seq<Opening>, i: nat)
    returns (grid'': Grid, work'': seq<Pos>, ghost log'': seq<Opening>)
    requires Rectangular(start) && Rectangular(grid) && i < |Actions|
    requires ScanOk(start, grid, work, log, cell, grid', work', log', i)
    ensures ScanOk(start, grid, work, log, cell, grid'', work'', log'', i + 1)
    ensures var n := Step(cell, Actions[i]);
      if InBounds(grid', n) && At(grid', n) == Blocked && HasOneOpenNeighbour(grid', n)
      then grid'' == SetCell(grid', n, Open) && work'' == work' + [n] && log'' == log' + [Opening(n, cell)]
      else grid'' == grid' && work'' == work' && log'' == log'
  {
    var n := Step(cell, Actions[i]);
    if InBounds(grid', n) && At(grid', n) == Blocked && HasOneOpenNeighbour(grid', n) {
      TryOpens(start, grid, work, cell, grid', work', log', i);
      ScanFrameOpen(grid, log, cell, grid', log', i);
      PushFrameOpen(work, log, work', log', n, cell);
      grid'', work'', log'' := SetCell(grid', n, Open), work' + [n], log' + [Opening(n, cell)];
    } else {
      TrySkips(start, grid, work, cell, grid', work', log', i);
      grid'', work'', log'' := grid', work', log';
    }
  }

  /** What holds after the inner loop has tried the first `i` neighbours of
      `cell`, starting from `grid` and `work`: the log is valid, enqueued cells
      are OPEN, walls only shrink, the tried neighbours are settled, new OPEN
      cells are enqueued, and explored cells stay explored. */
  ghost predicate AroundOk(start: Grid, grid: Grid, work: seq<Pos>, cell: Pos,
                           grid': Grid, work': seq<Pos>, log': seq<Opening>, i: nat)
    requires Rectangular(start) && Rectangular(grid) && Rectangular(grid')
  {
    && i <= |Actions|
    && grid' == Replay(start, log') && ValidLog(start, log')
    && IsOpen(grid', cell) && (forall w :: w in work' ==> IsOpen(grid', w))
    && CellsOf(grid', Blocked) <= CellsOf(grid, Blocked)
    && (CellsOf(grid', Blocked) == CellsOf(grid, Blocked) ==> work' == work)
    && (forall j :: 0 <= j < i ==> Settled(grid', Step(cell, Actions[j])))
    && (forall w :: w in work ==> w in work')
    && (forall p :: IsOpen(grid', p) ==> IsOpen(grid, p) || p in work')
    && (forall p :: Explored(grid, p) ==> Explored(grid', p))
  }

  /** What the scan of `cell`'s neighbours has done so far, starting from
      `grid` and `log`: only neighbours of `cell` have changed, and every new
      log entry opens a neighbour of `cell` with `cell` as its parent. */
  ghost predicate ScanFrame(grid: Grid, log: seq<Opening>, cell: Pos, grid': Grid, log': seq<Opening>)
    requires Rectangular(grid) && Rectangular(grid')
  {
    && SameShape(grid, grid')
    && (forall p :: InBounds(grid, p) && (forall a :: p != Step(cell, a)) ==> At(grid', p) == At(grid, p))
    && |log| <= |log'| && log'[..|log|] == log
    && (forall j :: |log| <= j < |log'| ==> log'[j].parent == cell && exists a :: log'[j].cell == Step(cell, a))
  }

  /** The scan pushes exactly the cells it opens: `work'` is `work` followed
      by the cells of the new log entries, in the order they were opened. */
  ghost predicate PushFrame(work: seq<Pos>, log: seq<Opening>, work': seq<Pos>, log': seq<Opening>) {
    && |log| <= |log'| && |work| <= |work'|
    && work'[..|work|] == work && work'[|work|..] == Opened(log'[|log|..])
  }

  /** Opening `n` and pushing it keeps pushes and openings in step. */
  lemma PushFrameOpen(work: seq<Pos>, log: seq<Opening>, work': seq<Pos>, log': seq<Opening>, n: Pos, cell: Pos)
    requires PushFrame(work, log, work', log')
    ensures PushFrame(work, log, work' + [n], log' + [Opening(n, cell)])
  {
    assert (log' + [Opening(n, cell)])[|log|..] == log'[|log|..] + [Opening(n, cell)];
    assert (work' + [n])[..|work|] == work'[..|work|];
    assert (work' + [n])[|work|..] == work'[|work|..] + [n];
    OpenedAppend(log'[|log|..], [Opening(n, cell)]);
  }

  /** Opening the `i`-th neighbour of `cell` keeps the scan's frame. */
  lemma ScanFrameOpen(grid: Grid, log: seq<Opening>, cell: Pos, grid': Grid, log': seq<Opening>, i: nat)
    requires Rectangular(grid) && Rectangular(grid') && ScanFrame(grid, log, cell, grid', log')
    requires i < |Actions| && InBounds(grid', Step(cell, Actions[i]))
    ensures var n := Step(cell, Actions[i]);
      ScanFrame(grid, log, cell, SetCell(grid', n, Open), log' + [Opening(n, cell)])
  {
    var n := Step(cell, Actions[i]);
    var log'' := log' + [Opening(n, cell)];
    assert log''[..|log|] == log'[..|log|];
    forall j | |log| <= j < |log''|
      ensures log''[j].parent == cell && exists a :: log''[j].cell == Step(cell, a)
    {
      if j == |log'| {
        assert log''[j].cell == Step(cell, Actions[i]);
      }
    }
  }

  /** The `i`-th neighbour passes the test and is opened and enqueued. */
  lemma TryOpens(start: Grid, grid: Grid, work: seq<Pos>, cell: Pos,
                 grid': Grid, work': seq<Pos>, log': seq<Opening>, i: nat)
    requires Rectangular(start) && Rectangular(grid) && Rectangular(grid')
    requires AroundOk(start, grid, work, cell, grid', work', log', i) && i < |Actions|
    requires var n := Step(cell, Actions[i]);
      InBounds(grid', n) && At(grid', n) == Blocked && HasOneOpenNeighbour(grid', n)
    ensures var n := Step(cell, Actions[i]);
      AroundOk(start, grid, work, cell, SetCell(grid', n, Open), work' + [n], log' + [Opening(n, cell)], i + 1)
  {
    var n := Step(cell, Actions[i]);
    var o := Opening(n, cell);
    OpeningKeeps(start, grid', log', work', o);
    OpeningSettles(grid, grid', work', cell, i, n);
  }

  /** The `i`-th neighbour fails the test and is left alone. */
  lemma TrySkips(start: Grid, grid: Grid, work: seq<Pos>, cell: Pos,
                 grid': Grid, work': seq<Pos>, log': seq<Opening>, i: nat)
    requires Rectangular(start) && Rectangular(grid) && Rectangular(grid')
    requires AroundOk(start, grid, work, cell, grid', work', log', i) && i < |Actions|
    requires var n := Step(cell, Actions[i]);
      !(InBounds(grid', n) && At(grid', n) == Blocked && HasOneOpenNeighbour(grid', n))
    ensures AroundOk(start, grid, work, cell, grid', work', log', i + 1)
  {
    FailedTestSettles(grid', cell, Actions[i]);
  }

  /** Once the four neighbours in `Action` order are settled, the cell is
      explored and none of its neighbours passes the test. */
  lemma AllTriedExplored(h: Grid, cell: Pos)
    requires Rectangular(h) && forall j :: 0 <= j < |Actions| ==> Settled(h, Step(cell, Actions[j]))
    ensures Explored(h, cell)
    ensures forall a :: var n := Step(cell, a);
      InBounds(h, n) && At(h, n) == Blocked ==> !HasOneOpenNeighbour(h, n)
  {
    forall a
      ensures Settled(h, Step(cell, a))
    {
      assert Actions[Index(a)] == a;
    }
    forall a
      ensures var n := Step(cell, a); InBounds(h, n) && At(h, n) == Blocked ==> !HasOneOpenNeighbour(h, n)
    {
      var n := Step(cell, a);
      if InBounds(h, n) && At(h, n) == Blocked {
        SettledFails(h, n);
      }
    }
  }

  /** Opening the `i`-th neighbour `n` of the popped cell inside the inner
      loop: the earlier neighbours stay settled, `n` itself is no longer a
      wall, new OPEN cells are enqueued, and explored cells stay explored. */
  lemma OpeningSettles(grid: Grid, grid': Grid, work': seq<Pos>, cell: Pos, i: nat, n: Pos)
    requires Rectangular(grid) && Rectangular(grid') && i < |Actions| && n == Step(cell, Actions[i])
    requires InBounds(grid', n) && At(grid', n) == Blocked
    requires forall j :: 0 <= j < i ==> Settled(grid', Step(cell, Actions[j]))
    requires forall p :: IsOpen(grid', p) ==> IsOpen(grid, p) || p in work'
    requires forall p :: Explored(grid, p) ==> Explored(grid', p)
    ensures var h := SetCell(grid', n, Open);
      && (forall j :: 0 <= j < i + 1 ==> Settled(h, Step(cell, Actions[j])))
      && (forall p :: IsOpen(h, p) ==> IsOpen(grid, p) || p in work' + [n])
      && (forall p :: Explored(grid, p) ==> Explored(h, p))
  {
    var h := SetCell(grid', n, Open);
    forall j | 0 <= j < i + 1
      ensures Settled(h, Step(cell, Actions[j]))
    {
      if j < i {
        SettledAfterOpening(grid', n, Step(cell, Actions[j]));
      }
    }
    forall p | IsOpen(h, p)
      ensures IsOpen(grid, p) || p in work' + [n]
    {
      InBoundsByShape(grid', h, p);
    }
    forall p | Explored(grid, p)
      ensures Explored(h, p)
    {
      ExploredAfterOpening(grid', n, p);
    }
  }

  /** One opening inside the inner loop: the log stays valid and replays to
      the new grid, the popped cell and the work-list stay OPEN, and one
      wall is gone. */
  lemma OpeningKeeps(start: Grid, grid: Grid, log: seq<Opening>, work: seq<Pos>, o: Opening)
    requires Rectangular(start) && grid == Replay(start, log) && ValidLog(start, log)
    requires ValidOpening(grid, o) && forall w :: w in work ==> IsOpen(grid, w)
    ensures var grid' := SetCell(grid, o.cell, Open);
      && grid' == Replay(start, log + [o]) && ValidLog(start, log + [o])
      && IsOpen(grid', o.parent) && (forall w :: w in work + [o.cell] ==> IsOpen(grid', w))
      && CellsOf(grid', Blocked) < CellsOf(grid, Blocked)
  {
    var grid' := SetCell(grid, o.cell, Open);
    LogSnoc(start, log, o);
    CellsOfSetCell(grid, o.cell, Open, Blocked);
    forall w | w in work + [o.cell]
      ensures IsOpen(grid', w)
    {
      InBoundsByShape(grid, grid', w);
    }
    InBoundsByShape(grid, grid', o.parent);
  }

  /** Replaying a valid log only turns walls into OPEN cells. */
  lemma {:induction false} CarvedOnlyOpens(start: Grid, log: seq<Opening>)
    requires Rectangular(start) && ValidLog(start, log)
    ensures forall p :: InBounds(start, p) ==>
      At(Replay(start, log), p) == At(start, p) || (At(start, p) == Blocked && At(Replay(start, log), p) == Open)
    decreases |log|
  {
    if log != [] {
      var prev := log[..|log| - 1];
      var h := Replay(start, prev);
      CarvedOnlyOpens(start, prev);
      forall p | InBounds(start, p)
        ensures At(Replay(start, log), p) == At(start, p) || (At(start, p) == Blocked && At(Replay(start, log), p) == Open)
      {
        InBoundsByShape(start, h, p);
      }
    }
  }

  /** Replaying a valid log leaves the ROBOT cells alone and removes one
      wall per opening. */
  lemma {:induction false} CarvedCounts(start: Grid, log: seq<Opening>)
    requires Rectangular(start) && ValidLog(start, log)
    ensures CellsOf(Replay(start, log), Robot) == CellsOf(start, Robot)
    ensures |log| + |CellsOf(Replay(start, log), Blocked)| == |CellsOf(start, Blocked)|
    decreases |log|
  {
    if log != [] {
      var prev := log[..|log| - 1];
      var o := log[|log| - 1];
      var h := Replay(start, prev);
      CarvedCounts(start, prev);
      assert Replay(start, log) == SetCell(h, o.cell, Open);
      OpeningCounts(h, o.cell);
    }
  }

  /** Opening one wall keeps the robots and removes exactly one wall. */
  lemma OpeningCounts(h: Grid, n: Pos)
    requires Rectangular(h) && InBounds(h, n) && At(h, n) == Blocked
    ensures CellsOf(SetCell(h, n, Open), Robot) == CellsOf(h, Robot)
    ensures |CellsOf(SetCell(h, n, Open), Blocked)| + 1 == |CellsOf(h, Blocked)|
  {
    CellsOfSetCell(h, n, Open, Robot);
    CellsOfSetCell(h, n, Open, Blocked);
    var b := CellsOf(h, Blocked);
    assert n in b;
  }

  /** In a grid of walls with only the seed opened, there is one OPEN cell
      and no OPEN adjacency. */
  lemma SeedIsTree(g: Grid, seed: Pos)
    requires Rectangular(g) && InBounds(g, seed) && AllBlocked(g)
    ensures CellsOf(Seeded(g, seed), Open) == {seed}
    ensures |OpenEdges(Seeded(g, seed))| + 1 == |CellsOf(Seeded(g, seed), Open)|
  {
    var h := Seeded(g, seed);
    CellsOfSetCell(g, seed, Open, Open);
    assert CellsOf(g, Open) == {};
    assert OpenEdges(h) == {};
  }

  /** Opening a wall with exactly one OPEN neighbour adds exactly one OPEN
      cell and exactly one OPEN adjacency. */
  lemma OpeningAddsOneEdge(h: Grid, n: Pos)
    requires Rectangular(h) && InBounds(h, n) && At(h, n) == Blocked && HasOneOpenNeighbour(h, n)
    ensures |CellsOf(SetCell(h, n, Open), Open)| == |CellsOf(h, Open)| + 1
    ensures |OpenEdges(SetCell(h, n, Open))| == |OpenEdges(h)| + 1
  {
    CellsOfSetCell(h, n, Open, Open);
    assert n !in CellsOf(h, Open);
    var a :| IsOpen(h, Step(n, a)) && forall a' :: IsOpen(h, Step(n, a')) ==> a' == a;
    var m := Step(n, a);
    var e := if a == Right || a == Down then (n, m) else (m, n);
    EdgesAfterOpening(h, n, a);
    var old_ := OpenEdges(h);
    assert e !in old_;
    assert |old_ + {e}| == |old_| + 1;
  }

  /** The OPEN adjacencies after opening `n` are the old ones plus the one
      joining `n` to its only OPEN neighbour `Step(n, a)`. */
  lemma EdgesAfterOpening(h: Grid, n: Pos, a: Action)
    requires Rectangular(h) && InBounds(h, n) && At(h, n) == Blocked
    requires IsOpen(h, Step(n, a)) && forall a' :: IsOpen(h, Step(n, a')) ==> a' == a
    ensures var m := Step(n, a);
      OpenEdges(SetCell(h, n, Open)) == OpenEdges(h) + {if a == Right || a == Down then (n, m) else (m, n)}
  {
    var h' := SetCell(h, n, Open);
    var m := Step(n, a);
    var e := if a == Right || a == Down then (n, m) else (m, n);
    forall x | x in OpenEdges(h')
      ensures x in OpenEdges(h) + {e}
    {
      EdgeAfterOpening(h, n, a, x);
    }
    forall x | x in OpenEdges(h)
      ensures x in OpenEdges(h')
    {
      InBoundsByShape(h, h', x.0);
      InBoundsByShape(h, h', x.1);
    }
    NewEdgeIsOpen(h, n, a);
  }

  /** The adjacency joining `n` to its OPEN neighbour `Step(n, a)`, written
      in the orientation `OpenEdges` uses, is OPEN once `n` is opened. */
  lemma NewEdgeIsOpen(h: Grid, n: Pos, a: Action)
    requires Rectangular(h) && InBounds(h, n) && IsOpen(h, Step(n, a))
    ensures var m := Step(n, a);
      (if a == Right || a == Down then (n, m) else (m, n)) in OpenEdges(SetCell(h, n, Open))
  {
    var h' := SetCell(h, n, Open);
    var m := Step(n, a);
    InBoundsByShape(h, h', m);
    assert IsOpen(h', n) && IsOpen(h', m);
    if a == Left {
      assert n == Step(m, Right);
    } else if a == Up {
      assert n == Step(m, Down);
    }
  }

  /** An OPEN adjacency after opening `n` was OPEN before, or joins `n` to its
      only OPEN neighbour `Step(n, a)`. */
  lemma EdgeAfterOpening(h: Grid, n: Pos, a: Action, x: (Pos, Pos))
    requires Rectangular(h) && InBounds(h, n) && At(h, n) == Blocked
    requires forall a' :: IsOpen(h, Step(n, a')) ==> a' == a
    requires x in OpenEdges(SetCell(h, n, Open))
    ensures var m := Step(n, a);
      x in OpenEdges(h) || x == (if a == Right || a == Down then (n, m) else (m, n))
  {
    var h' := SetCell(h, n, Open);
    var (p, q) := x;
    InBoundsByShape(h, h', p);
    InBoundsByShape(h, h', q);
    if p == n {
      if q == Step(n, Right) {
        assert IsOpen(h, Step(n, Right));
      } else {
        assert IsOpen(h, Step(n, Down));
      }
    } else if q == n {
      if q == Step(p, Right) {
        StepBack(p, Right);
        assert p == Step(n, Left) && IsOpen(h, Step(n, Left));
      } else {
        StepBack(p, Down);
        assert p == Step(n, Up) && IsOpen(h, Step(n, Up));
      }
    }
  }

  /** Every opening of a valid log keeps the tree count. */
  lemma {:induction false} LogKeepsTree(start: Grid, log: seq<Opening>)
    requires Rectangular(start) && ValidLog(start, log)
    requires |OpenEdges(start)| + 1 == |CellsOf(start, Open)|
    ensures |OpenEdges(Replay(start, log))| + 1 == |CellsOf(Replay(start, log), Open)|
    decreases |log|
  {
    if log != [] {
      var prev := log[..|log| - 1];
      LogKeepsTree(start, prev);
      OpeningAddsOneEdge(Replay(start, prev), log[|log| - 1].cell);
    }
  }

  /** With only the seed opened in a grid of walls, every OPEN cell reaches it. */
  lemma SeedConnected(g: Grid, seed: Pos)
    requires Rectangular(g) && InBounds(g, seed) && AllBlocked(g)
    ensures forall p :: IsOpen(Seeded(g, seed), p) ==> Connected(Seeded(g, seed), p, seed)
  {
    var h := Seeded(g, seed);
    SeedIsTree(g, seed);
    forall p | IsOpen(h, p)
      ensures Connected(h, p, seed)
    {
      assert p in CellsOf(h, Open);
      assert OpenWalk(h, [seed]);
    }
  }

  /** An OPEN walk stays one when another cell is opened. */
  lemma WalkSurvivesOpening(h: Grid, n: Pos, w: seq<Pos>)
    requires Rectangular(h) && InBounds(h, n) && OpenWalk(h, w)
    ensures OpenWalk(SetCell(h, n, Open), w)
  {
    var h' := SetCell(h, n, Open);
    forall i | 0 <= i < |w|
      ensures IsOpen(h', w[i])
    {
      InBoundsByShape(h, h', w[i]);
    }
  }

  /** Every opening of a valid log keeps every OPEN cell connected to `root`:
      the new cell steps onto its OPEN parent and continues along the
      parent's walk. */
  lemma {:induction false} LogKeepsConnected(start: Grid, root: Pos, log: seq<Opening>)
    requires Rectangular(start) && ValidLog(start, log)
    requires forall p :: IsOpen(start, p) ==> Connected(start, p, root)
    ensures forall p :: IsOpen(Replay(start, log), p) ==> Connected(Replay(start, log), p, root)
    decreases |log|
  {
    if log != [] {
      var prev := log[..|log| - 1];
      var o := log[|log| - 1];
      var h := Replay(start, prev);
      var h' := Replay(start, log);
      LogKeepsConnected(start, root, prev);
      assert h' == SetCell(h, o.cell, Open);
      forall p | IsOpen(h', p)
        ensures Connected(h', p, root)
      {
        ConnectedAfterOpening(h, o, root, p);
      }
    }
  }

  /** After a valid opening, every OPEN cell still reaches `root`: the new
      cell steps onto its OPEN parent and continues along the parent's walk. */
  lemma ConnectedAfterOpening(h: Grid, o: Opening, root: Pos, p: Pos)
    requires Rectangular(h) && ValidOpening(h, o)
    requires forall p :: IsOpen(h, p) ==> Connected(h, p, root)
    requires IsOpen(SetCell(h, o.cell, Open), p)
    ensures Connected(SetCell(h, o.cell, Open), p, root)
  {
    var h' := SetCell(h, o.cell, Open);
    InBoundsByShape(h, h', p);
    var from := if p == o.cell then o.parent else p;
    assert IsOpen(h, from);
    var w :| OpenWalk(h, w) && w[0] == from && w[|w| - 1] == root;
    WalkSurvivesOpening(h, o.cell, w);
    if p == o.cell {
      var w' := [p] + w;
      AdjacentSymmetric(o.parent, o.cell);
      assert OpenWalk(h', w') by {
        assert forall i :: 0 < i < |w'| ==> w'[i] == w[i - 1];
      }
      assert w'[0] == p && w'[|w'| - 1] == root;
    } else {
      assert OpenWalk(h', w);
    }
  }

}
