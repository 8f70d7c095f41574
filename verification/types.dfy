/** The vocabulary shared by the whole simulator: the four moves a robot can
    attempt and the three states a grid cell can be in. */
module Types {

  /** A move; its unit vector is `Delta`. */
  datatype Action = Left | Right | Up | Down

  /** A grid cell holds exactly one of these. */
  datatype Cell = Open | Robot | Blocked

  /** A (row, column) coordinate; it may lie off the grid. */
  type Pos = (int, int)

  function Abs(x: int): nat {
    if x < 0 then -x else x
  }

  /** The (row delta, column delta) of an action: rows grow downwards. */
  function Delta(a: Action): (d: (int, int))
    ensures Abs(d.0) + Abs(d.1) == 1
  {
    match a
    case Left => (0, -1)
    case Right => (0, 1)
    case Up => (-1, 0)
    case Down => (1, 0)
  }

  /** The action that undoes `a`. */
  function Opposite(a: Action): (b: Action)
    ensures b != a
    ensures Delta(b) == (-Delta(a).0, -Delta(a).1)
  {
    match a
    case Left => Right
    case Right => Left
    case Up => Down
    case Down => Up
  }

  /** The order in which the simulator enumerates actions; every search
      breaks ties by it. */
  const Actions: seq<Action> := [Left, Right, Up, Down]

  /** The position of `a` in `Actions`. */
  function Index(a: Action): (i: nat)
    ensures i < |Actions| && Actions[i] == a
  {
    match a
    case Left => 0
    case Right => 1
    case Up => 2
    case Down => 3
  }

  /** `Actions` lists every action exactly once. */
  lemma ActionsEnumerate()
    ensures |Actions| == 4
    ensures forall a: Action :: a in Actions
    ensures forall i, j :: 0 <= i < j < |Actions| ==> Actions[i] != Actions[j]
  {
    forall a: Action
      ensures a in Actions
    {
      assert Actions[Index(a)] == a;
    }
  }

  /** `Index` inverts indexing into `Actions`. */
  lemma IndexOfAction(k: nat)
    requires k < |Actions|
    ensures Index(Actions[k]) == k
  {
    ActionsEnumerate();
  }

  /** Different actions move in different directions. */
  lemma DeltaInjective(a: Action, b: Action)
    ensures Delta(a) == Delta(b) ==> a == b
  {
  }

  /** `q` is one orthogonal step away from `p`. */
  predicate Adjacent(p: Pos, q: Pos) {
    Abs(q.0 - p.0) + Abs(q.1 - p.1) == 1
  }

  /** Adjacency is symmetric. */
  lemma AdjacentSymmetric(p: Pos, q: Pos)
    requires Adjacent(p, q)
    ensures Adjacent(q, p)
  {
  }

  /** The cell reached from `p` by one step of `a`. */
  function Step(p: Pos, a: Action): (q: Pos)
    ensures Adjacent(p, q)
  {
    (p.0 + Delta(a).0, p.1 + Delta(a).1)
  }

  /** Stepping back the opposite way returns to the start. */
  lemma StepBack(p: Pos, a: Action)
    ensures Step(Step(p, a), Opposite(a)) == p
    ensures Opposite(Opposite(a)) == a
  {
  }

  /** Steps from one cell in two different directions land on different cells. */
  lemma StepInjective(p: Pos, a: Action, b: Action)
    ensures Step(p, a) == Step(p, b) ==> a == b
  {
    DeltaInjective(a, b);
  }
}
