/** The belief-state localization solver: a FIFO breadth-first search over
    sets of possible robot positions that stops at the first singleton. */
module BfsSolver {
  import opened Types
  import opened Utils
  import opened Belief
  import opened Plans

  /** A queue entry: a belief state and the plan that produced it. */
  type Entry = (set<Pos>, seq<Action>)

  /** Some plan narrows the possible positions of `g` down to one cell. */
  ghost predicate CanLocalize(g: Grid)
    requires Rectangular(g)
  {
    exists q :: Localizes(g, AllPossiblePositions(g), q)
  }

  /** Some element of a non-empty set. */
  ghost function Pick(u: set<Pos>): (x: Pos)
    requires u != {}
    ensures x in u
  {
    var x :| x in u; x
  }

  /** Every subset of `u`. */
  ghost function Subsets(u: set<Pos>): set<set<Pos>>
    decreases u
  {
    if u == {} then {{}}
    else
      var x := Pick(u);
      var rest := Subsets(u - {x});
      rest + set s | s in rest :: s + {x}
  }

  lemma {:induction false} SubsetsComplete(u: set<Pos>, s: set<Pos>)
    requires s <= u
    ensures s in Subsets(u)
    decreases u
  {
    if u != {} {
      var x := Pick(u);
      var rest := Subsets(u - {x});
      assert Subsets(u) == rest + set t | t in rest :: t + {x};
      if x in s {
        SubsetsComplete(u - {x}, s - {x});
        assert s == (s - {x}) + {x};
        assert (s - {x}) + {x} in set t | t in rest :: t + {x};
      } else {
        assert s <= u - {x};
        SubsetsComplete(u - {x}, s);
      }
    } else {
      assert s == {};
    }
  }

  ghost predicate InQueue(queue: seq<Entry>, s: set<Pos>) {
    exists i :: 0 <= i < |queue| && queue[i].0 == s
  }

  /** What the queue holds at the start of an iteration when the plans at
      its front have length `level`: each entry's state is where its plan
      leads; plans have length `level` or `level + 1` and strictly increase in
      `PlanLess` order along the queue; no shorter plan reaches an entry's
      state, and no plan of the same length that is lexicographically
      smaller does; every longer plan extends a plan smaller than every
      shorter one still waiting. */
  ghost predicate QueueOk(g: Grid, init: set<Pos>, queue: seq<Entry>, level: nat)
    requires Rectangular(g)
  {
    && QueueRuns(g, init, queue)
    && QueueLevels(queue, level)
    && QueueSorted(queue)
    && QueueShortest(g, init, queue)
    && QueueLexLeast(g, init, queue)
    && QueueLayered(queue, level)
  }

  ghost predicate QueueRuns(g: Grid, init: set<Pos>, queue: seq<Entry>)
    requires Rectangular(g)
  {
    forall i :: 0 <= i < |queue| ==> Run(g, init, queue[i].1) == queue[i].0
  }

  ghost predicate QueueLevels(queue: seq<Entry>, level: nat) {
    forall i :: 0 <= i < |queue| ==> level <= |queue[i].1| <= level + 1
  }

  ghost predicate QueueSorted(queue: seq<Entry>) {
    forall i, j :: 0 <= i < j < |queue| ==> PlanLess(queue[i].1, queue[j].1)
  }

  ghost predicate QueueShortest(g: Grid, init: set<Pos>, queue: seq<Entry>)
    requires Rectangular(g)
  {
    forall i, q :: 0 <= i < |queue| && |q| < |queue[i].1| ==> Run(g, init, q) != queue[i].0
  }

  ghost predicate QueueLexLeast(g: Grid, init: set<Pos>, queue: seq<Entry>)
    requires Rectangular(g)
  {
    forall i, q :: 0 <= i < |queue| && |q| == |queue[i].1| && Run(g, init, q) == queue[i].0 ==> !LexLess(q, queue[i].1)
  }

  ghost predicate QueueLayered(queue: seq<Entry>, level: nat) {
    forall i, j :: 0 <= i < |queue| && 0 <= j < |queue| && |queue[i].1| == level + 1 && |queue[j].1| == level
      ==> LexLess(queue[i].1[..level], queue[j].1)
  }

  /** What is known about the states seen so far: all are subsets of the
      start; expanded states are not singletons and their successors have
      been seen; every plan shorter than `level` leads to an expanded state
      and every plan of length at most `level` to a seen one. */
  ghost predicate ExploredOk(g: Grid, init: set<Pos>, visited: set<set<Pos>>, expanded: set<set<Pos>>, level: nat)
    requires Rectangular(g)
  {
    && init in visited
    && (forall s :: s in visited ==> s <= init)
    && expanded <= visited
    && (forall s, a :: s in expanded ==> SimulateMove(g, s, a) in visited)
    && (forall s :: s in expanded ==> |s| != 1)
    && (forall q :: |q| < level ==> Run(g, init, q) in expanded)
    && (forall q :: |q| <= level ==> Run(g, init, q) in visited)
  }

  /** Every queued state was seen, and every seen state is expanded or queued. */
  ghost predicate CoverOk(queue: seq<Entry>, visited: set<set<Pos>>, expanded: set<set<Pos>>) {
    && (forall i :: 0 <= i < |queue| ==> queue[i].0 in visited)
    && (forall s :: s in visited ==> s in expanded || InQueue(queue, s))
  }

  ghost predicate SearchOk(g: Grid, init: set<Pos>, queue: seq<Entry>, visited: set<set<Pos>>, expanded: set<set<Pos>>, level: nat)
    requires Rectangular(g)
  {
    QueueOk(g, init, queue, level) && ExploredOk(g, init, visited, expanded, level) && CoverOk(queue, visited, expanded)
  }

  /** When the front of the queue is one longer than `level`, every plan of
      length `level` has been expanded, so the level can go up. */
  lemma LevelUp(g: Grid, init: set<Pos>, queue: seq<Entry>, visited: set<set<Pos>>, expanded: set<set<Pos>>, level: nat)
    requires Rectangular(g) && SearchOk(g, init, queue, visited, expanded, level)
    requires queue != [] && |queue[0].1| == level + 1
    ensures SearchOk(g, init, queue, visited, expanded, level + 1)
  {
    forall i | 0 <= i < |queue|
      ensures |queue[i].1| == level + 1
    {
      if i > 0 {
        assert PlanLess(queue[0].1, queue[i].1);
      }
    }
    forall q | |q| < level + 1
      ensures Run(g, init, q) in expanded
    {
    }
    forall q | |q| <= level + 1
      ensures Run(g, init, q) in visited
    {
      if |q| == level + 1 {
        var prefix := q[..|q| - 1];
        assert Run(g, init, prefix) in expanded;
        assert Run(g, init, q) == SimulateMove(g, Run(g, init, prefix), q[|q| - 1]);
      }
    }
  }

  /** A singleton at the front of the queue is reached by the least
      localizing plan. */
  lemma FrontIsLeast(g: Grid, init: set<Pos>, queue: seq<Entry>, visited: set<set<Pos>>, expanded: set<set<Pos>>, level: nat)
    requires Rectangular(g) && SearchOk(g, init, queue, visited, expanded, level)
    requires queue != [] && |queue[0].1| == level && |queue[0].0| == 1
    ensures Localizes(g, init, queue[0].1)
    ensures forall q :: PlanLess(q, queue[0].1) ==> !Localizes(g, init, q)
    ensures |init| == 1 ==> queue[0].1 == []
  {
    var plan := queue[0].1;
    forall q | PlanLess(q, plan)
      ensures !Localizes(g, init, q)
    {
      var t := Run(g, init, q);
      if |q| == level && t !in expanded {
        assert InQueue(queue, t);
        var i :| 0 <= i < |queue| && queue[i].0 == t;
        if i > 0 {
          assert |queue[i].1| == level;
          assert PlanLess(plan, queue[i].1);
          LexTransitive(q, plan, queue[i].1);
        }
      }
    }
    if |init| == 1 && plan != [] {
      assert PlanLess([], plan) && Localizes(g, init, []);
    }
  }

  /** With the queue empty, no plan localizes. */
  lemma ExhaustedCannotLocalize(g: Grid, init: set<Pos>, visited: set<set<Pos>>, expanded: set<set<Pos>>, level: nat)
    requires Rectangular(g) && init == AllPossiblePositions(g)
    requires SearchOk(g, init, [], visited, expanded, level)
    ensures !CanLocalize(g)
  {
    forall q
      ensures !Localizes(g, init, q)
    {
      ExhaustedReachesExpanded(g, init, visited, expanded, level, q);
    }
  }

  /** A newly seen state removes one element from the subsets not yet seen. */
  lemma UnseenShrinks(init: set<Pos>, visited0: set<set<Pos>>, visited: set<set<Pos>>)
    requires visited0 <= visited && visited0 != visited
    requires forall s :: s in visited ==> s <= init
    ensures Subsets(init) - visited < Subsets(init) - visited0
  {
    var t :| t in visited && t !in visited0;
    SubsetsComplete(init, t);
    assert t in Subsets(init) - visited0;
  }

  /** What holds while the state `cur`, reached by `plan`, is being expanded
      and the first `k` actions have been tried: the queue is `QueueOk` and
      the entries pushed by this expansion, from `n0` on, extend `plan` by
      actions earlier than `Actions[k]`. */
  ghost predicate ExpandOk(g: Grid, init: set<Pos>, queue: seq<Entry>, visited: set<set<Pos>>, expanded: set<set<Pos>>,
                           level: nat, cur: set<Pos>, plan: seq<Action>, n0: nat, k: nat)
    requires Rectangular(g)
  {
    && QueueOk(g, init, queue, level)
    && ExploredOk(g, init, visited, expanded, level)
    && CurrentOk(g, init, level, cur, plan) && cur in visited
    && FrontierOk(queue, level, plan, n0, k)
    && TriedOk(g, cur, visited, k)
    && CoverDuring(queue, visited, expanded, cur)
  }

  /** `cur` is not a singleton and `plan` is the lexicographically least
      plan of length `level` reaching it. */
  ghost predicate CurrentOk(g: Grid, init: set<Pos>, level: nat, cur: set<Pos>, plan: seq<Action>)
    requires Rectangular(g)
  {
    && |plan| == level && Run(g, init, plan) == cur && |cur| != 1
    && (forall q :: |q| == level && Run(g, init, q) == cur ==> !LexLess(q, plan))
  }

  /** Where `plan` sits in the queue: before every waiting plan of its own
      length, after the prefixes of the longer plans queued before `n0`, and
      extended by the entries from `n0` on with actions earlier than
      `Actions[k]`. */
  ghost predicate FrontierOk(queue: seq<Entry>, level: nat, plan: seq<Action>, n0: nat, k: nat) {
    && n0 <= |queue| && k <= |Actions|
    && (forall i :: 0 <= i < |queue| && |queue[i].1| == level ==> LexLess(plan, queue[i].1))
    && (forall i :: 0 <= i < n0 && |queue[i].1| == level + 1 ==> LexLess(queue[i].1[..level], plan))
    && (forall i :: n0 <= i < |queue| ==>
          |queue[i].1| == level + 1 && queue[i].1[..level] == plan && Index(queue[i].1[level]) < k)
  }

  /** The successors of `cur` under the first `k` actions have been seen. */
  ghost predicate TriedOk(g: Grid, cur: set<Pos>, visited: set<set<Pos>>, k: nat)
    requires Rectangular(g)
  {
    forall j :: 0 <= j < k && j < |Actions| ==> SimulateMove(g, cur, Actions[j]) in visited
  }

  /** `CoverOk` while `cur` is out of the queue but not yet expanded. */
  ghost predicate CoverDuring(queue: seq<Entry>, visited: set<set<Pos>>, expanded: set<set<Pos>>, cur: set<Pos>) {
    && (forall i :: 0 <= i < |queue| ==> queue[i].0 in visited)
    && (forall s :: s in visited ==> s in expanded || s == cur || InQueue(queue, s))
  }

  /** Popping the front entry, which is not a singleton, starts its expansion. */
  lemma StartExpand(g: Grid, init: set<Pos>, queue: seq<Entry>, visited: set<set<Pos>>, expanded: set<set<Pos>>, level: nat)
    requires Rectangular(g) && SearchOk(g, init, queue, visited, expanded, level)
    requires queue != [] && |queue[0].1| == level && |queue[0].0| != 1
    ensures ExpandOk(g, init, queue[1..], visited, expanded, level, queue[0].0, queue[0].1, |queue| - 1, 0)
  {
    var rest := queue[1..];
    QueueTail(g, init, queue, level);
    forall s | s in visited
      ensures s in expanded || s == queue[0].0 || InQueue(rest, s)
    {
      if s !in expanded && s != queue[0].0 {
        var i :| 0 <= i < |queue| && queue[i].0 == s;
        assert rest[i - 1].0 == s;
      }
    }
    forall i | 0 <= i < |rest| && |rest[i].1| == level
      ensures LexLess(queue[0].1, rest[i].1)
    {
      assert rest[i] == queue[i + 1];
      assert PlanLess(queue[0].1, queue[i + 1].1);
    }
    forall i | 0 <= i < |rest| && |rest[i].1| == level + 1
      ensures LexLess(rest[i].1[..level], queue[0].1)
    {
      assert rest[i] == queue[i + 1];
    }
    assert forall i :: 0 <= i < |rest| ==> rest[i].0 in visited by {
      forall i | 0 <= i < |rest| ensures rest[i].0 in visited {
        assert rest[i] == queue[i + 1];
      }
    }
  }

  /** Dropping the front entry keeps `QueueOk`. */
  lemma QueueTail(g: Grid, init: set<Pos>, queue: seq<Entry>, level: nat)
    requires Rectangular(g) && QueueOk(g, init, queue, level) && queue != []
    ensures QueueOk(g, init, queue[1..], level)
  {
    var rest := queue[1..];
    assert forall i :: 0 <= i < |rest| ==> rest[i] == queue[i + 1];
  }

  /** Trying an action whose successor was seen before changes nothing. */
  lemma SkipSeen(g: Grid, init: set<Pos>, queue: seq<Entry>, visited: set<set<Pos>>, expanded: set<set<Pos>>,
                 level: nat, cur: set<Pos>, plan: seq<Action>, n0: nat, k: nat)
    requires Rectangular(g) && ExpandOk(g, init, queue, visited, expanded, level, cur, plan, n0, k)
    requires k < |Actions| && SimulateMove(g, cur, Actions[k]) in visited
    ensures ExpandOk(g, init, queue, visited, expanded, level, cur, plan, n0, k + 1)
  {
  }

  /** Pushing a successor not seen before keeps every property. */
  lemma PushNew(g: Grid, init: set<Pos>, queue: seq<Entry>, visited: set<set<Pos>>, expanded: set<set<Pos>>,
                level: nat, cur: set<Pos>, plan: seq<Action>, n0: nat, k: nat)
    requires Rectangular(g) && init == AllPossiblePositions(g)
    requires ExpandOk(g, init, queue, visited, expanded, level, cur, plan, n0, k)
    requires k < |Actions| && SimulateMove(g, cur, Actions[k]) !in visited
    ensures var next := SimulateMove(g, cur, Actions[k]);
      ExpandOk(g, init, queue + [(next, plan + [Actions[k]])], visited + {next}, expanded, level, cur, plan, n0, k + 1)
  {
    var a := Actions[k];
    var next := SimulateMove(g, cur, a);
    var np := plan + [a];
    PushComesLast(queue, plan, level, n0, k);
    forall q | |q| == level + 1 && LexLess(q, np)
      ensures Run(g, init, q) != next
    {
      SmallerPlanSeen(g, init, queue, visited, expanded, level, cur, plan, n0, k, q);
    }
    PushCovers(queue, visited, expanded, cur, next, np);
    assert np[..level] == plan;
    assert Run(g, init, np) == next;
    assert forall j :: 0 <= j < |queue| && |queue[j].1| == level ==> LexLess(np[..level], queue[j].1);
    QueueSnoc(g, init, queue, level, (next, np));
    assert cur <= init;
    SimulateMoveStaysPossible(g, cur, a);
    ExploredGrow(g, init, visited, expanded, level, next);
    PushExtendsPlan(queue, plan, level, n0, k, next);
    TriedGrow(g, cur, visited, k);
  }

  /** Trying action `k` records its successor as seen. */
  lemma TriedGrow(g: Grid, cur: set<Pos>, visited: set<set<Pos>>, k: nat)
    requires Rectangular(g) && TriedOk(g, cur, visited, k) && k < |Actions|
    ensures TriedOk(g, cur, visited + {SimulateMove(g, cur, Actions[k])}, k + 1)
  {
  }

  /** Appending an entry one action longer than `level` keeps `QueueOk`
      when its plan comes after every queued plan, reaches its state first
      and extends a plan smaller than every queued plan of length `level`. */
  lemma QueueSnoc(g: Grid, init: set<Pos>, queue: seq<Entry>, level: nat, e: Entry)
    requires Rectangular(g) && QueueOk(g, init, queue, level)
    requires Run(g, init, e.1) == e.0 && |e.1| == level + 1
    requires forall i :: 0 <= i < |queue| ==> PlanLess(queue[i].1, e.1)
    requires forall q :: |q| < level + 1 ==> Run(g, init, q) != e.0
    requires forall q :: |q| == level + 1 && Run(g, init, q) == e.0 ==> !LexLess(q, e.1)
    requires forall j :: 0 <= j < |queue| && |queue[j].1| == level ==> LexLess(e.1[..level], queue[j].1)
    ensures QueueOk(g, init, queue + [e], level)
  {
    SnocRuns(g, init, queue, e);
    SnocLevels(queue, level, e);
    SnocSorted(queue, e);
    SnocShortest(g, init, queue, e);
    SnocLexLeast(g, init, queue, e);
    SnocLayered(queue, level, e);
  }

  lemma SnocRuns(g: Grid, init: set<Pos>, queue: seq<Entry>, e: Entry)
    requires Rectangular(g) && QueueRuns(g, init, queue) && Run(g, init, e.1) == e.0
    ensures QueueRuns(g, init, queue + [e])
  {
    var queue' := queue + [e];
    forall i | 0 <= i < |queue'|
      ensures Run(g, init, queue'[i].1) == queue'[i].0
    {
      if i < |queue| {
        assert queue'[i] == queue[i];
      }
    }
  }

  lemma SnocLevels(queue: seq<Entry>, level: nat, e: Entry)
    requires QueueLevels(queue, level) && |e.1| == level + 1
    ensures QueueLevels(queue + [e], level)
  {
    var queue' := queue + [e];
    forall i | 0 <= i < |queue'|
      ensures level <= |queue'[i].1| <= level + 1
    {
      if i < |queue| {
        assert queue'[i] == queue[i];
      }
    }
  }

  lemma SnocSorted(queue: seq<Entry>, e: Entry)
    requires QueueSorted(queue)
    requires forall i :: 0 <= i < |queue| ==> PlanLess(queue[i].1, e.1)
    ensures QueueSorted(queue + [e])
  {
    var queue' := queue + [e];
    forall i, j | 0 <= i < j < |queue'|
      ensures PlanLess(queue'[i].1, queue'[j].1)
    {
      assert queue'[i] == queue[i];
      if j < |queue| {
        assert queue'[j] == queue[j];
      }
    }
  }

  lemma SnocShortest(g: Grid, init: set<Pos>, queue: seq<Entry>, e: Entry)
    requires Rectangular(g) && QueueShortest(g, init, queue)
    requires forall q :: |q| < |e.1| ==> Run(g, init, q) != e.0
    ensures QueueShortest(g, init, queue + [e])
  {
    var queue' := queue + [e];
    forall i, q | 0 <= i < |queue'| && |q| < |queue'[i].1|
      ensures Run(g, init, q) != queue'[i].0
    {
      if i < |queue| {
        assert queue'[i] == queue[i];
      }
    }
  }

  lemma SnocLexLeast(g: Grid, init: set<Pos>, queue: seq<Entry>, e: Entry)
    requires Rectangular(g) && QueueLexLeast(g, init, queue)
    requires forall q :: |q| == |e.1| && Run(g, init, q) == e.0 ==> !LexLess(q, e.1)
    ensures QueueLexLeast(g, init, queue + [e])
  {
    var queue' := queue + [e];
    forall i, q | 0 <= i < |queue'| && |q| == |queue'[i].1| && Run(g, init, q) == queue'[i].0
      ensures !LexLess(q, queue'[i].1)
    {
      if i < |queue| {
        assert queue'[i] == queue[i];
      }
    }
  }

  lemma SnocLayered(queue: seq<Entry>, level: nat, e: Entry)
    requires QueueLayered(queue, level) && |e.1| == level + 1
    requires forall j :: 0 <= j < |queue| && |queue[j].1| == level ==> LexLess(e.1[..level], queue[j].1)
    ensures QueueLayered(queue + [e], level)
  {
    var queue' := queue + [e];
    forall i, j | 0 <= i < |queue'| && 0 <= j < |queue'| && |queue'[i].1| == level + 1 && |queue'[j].1| == level
      ensures LexLess(queue'[i].1[..level], queue'[j].1)
    {
      assert j < |queue| && queue'[j] == queue[j];
      if i < |queue| {
        assert queue'[i] == queue[i];
      }
    }
  }

  /** The entries pushed while expanding `plan` stay those that extend it by
      an action tried so far. */
  lemma PushExtendsPlan(queue: seq<Entry>, plan: seq<Action>, level: nat, n0: nat, k: nat, next: set<Pos>)
    requires k < |Actions| && |plan| == level
    requires FrontierOk(queue, level, plan, n0, k)
    ensures FrontierOk(queue + [(next, plan + [Actions[k]])], level, plan, n0, k + 1)
  {
    var queue' := queue + [(next, plan + [Actions[k]])];
    assert forall i :: 0 <= i < |queue| ==> queue'[i] == queue[i];
    assert queue'[|queue|].1 == plan + [Actions[k]];
    assert queue'[|queue|].1[..level] == plan;
    IndexOfAction(k);
  }

  /** Seeing one more subset of the start keeps `ExploredOk`. */
  lemma ExploredGrow(g: Grid, init: set<Pos>, visited: set<set<Pos>>, expanded: set<set<Pos>>, level: nat, next: set<Pos>)
    requires Rectangular(g) && ExploredOk(g, init, visited, expanded, level) && next <= init
    ensures ExploredOk(g, init, visited + {next}, expanded, level)
  {
  }

  /** The plan pushed while expanding `plan` with `Actions[k]` comes after
      every plan already queued. */
  lemma PushComesLast(queue: seq<Entry>, plan: seq<Action>, level: nat, n0: nat, k: nat)
    requires k < |Actions| && |plan| == level
    requires QueueLevels(queue, level) && FrontierOk(queue, level, plan, n0, k)
    ensures forall i :: 0 <= i < |queue| ==> PlanLess(queue[i].1, plan + [Actions[k]])
  {
    var a := Actions[k];
    assert Index(a) == k;
    forall i | 0 <= i < |queue|
      ensures PlanLess(queue[i].1, plan + [a])
    {
      var e := queue[i].1;
      if |e| == level + 1 {
        SplitLast(e);
        assert e == e[..level] + [e[level]];
        if i < n0 {
          LexAppend(e[..level], plan, e[level], a);
        } else {
          LexLastAction(plan, e[level], a);
        }
      }
    }
  }

  /** Every plan of length `level + 1` lexicographically smaller than
      `plan + [Actions[k]]` leads to a state already seen: its prefix is
      `plan` with an earlier action, or leads to an expanded state; any other
      prefix would reach `cur` or a queued state ahead of the plans known to
      be least for them. */
  lemma SmallerPlanSeen(g: Grid, init: set<Pos>, queue: seq<Entry>, visited: set<set<Pos>>, expanded: set<set<Pos>>,
                        level: nat, cur: set<Pos>, plan: seq<Action>, n0: nat, k: nat, q: seq<Action>)
    requires Rectangular(g)
    requires QueueLevels(queue, level) && QueueShortest(g, init, queue) && QueueLexLeast(g, init, queue)
    requires ExploredOk(g, init, visited, expanded, level) && CurrentOk(g, init, level, cur, plan)
    requires FrontierOk(queue, level, plan, n0, k) && TriedOk(g, cur, visited, k) && CoverDuring(queue, visited, expanded, cur)
    requires k < |Actions| && |q| == level + 1 && LexLess(q, plan + [Actions[k]])
    ensures Run(g, init, q) in visited
  {
    var a := Actions[k];
    var q', b := q[..level], q[level];
    SplitLast(q);
    assert q == q' + [b];
    LexSplit(q', plan, b, a);
    var s' := Run(g, init, q');
    assert Run(g, init, q) == SimulateMove(g, s', b);
    if q' == plan {
      IndexOfAction(k);
      assert Actions[Index(b)] == b;
    } else if s' !in expanded {
      assert s' in visited;
      if s' != cur {
        assert InQueue(queue, s');
        var i :| 0 <= i < |queue| && queue[i].0 == s';
        if |queue[i].1| == level {
          LexTransitive(q', plan, queue[i].1);
        }
      }
    }
  }

  /** Seen states stay covered when a new state is seen and queued. */
  lemma PushCovers(queue: seq<Entry>, visited: set<set<Pos>>, expanded: set<set<Pos>>, cur: set<Pos>, next: set<Pos>, np: seq<Action>)
    requires CoverDuring(queue, visited, expanded, cur)
    ensures CoverDuring(queue + [(next, np)], visited + {next}, expanded, cur)
  {
    var queue' := queue + [(next, np)];
    forall s | s in visited + {next}
      ensures s in expanded || s == cur || InQueue(queue', s)
    {
      if s == next {
        assert queue'[|queue|].0 == s;
      } else if s !in expanded && s != cur {
        var i :| 0 <= i < |queue| && queue[i].0 == s;
        assert queue'[i].0 == s;
      }
    }
  }

  /** Once every action has been tried, `cur` joins the expanded states. */
  lemma FinishExpand(g: Grid, init: set<Pos>, queue: seq<Entry>, visited: set<set<Pos>>, expanded: set<set<Pos>>,
                     level: nat, cur: set<Pos>, plan: seq<Action>, n0: nat)
    requires Rectangular(g) && ExpandOk(g, init, queue, visited, expanded, level, cur, plan, n0, |Actions|)
    ensures SearchOk(g, init, queue, visited, expanded + {cur}, level)
  {
    forall s, a | s in expanded + {cur}
      ensures SimulateMove(g, s, a) in visited
    {
      if s == cur {
        assert Actions[Index(a)] == a;
      }
    }
  }

  /** With the queue empty, every plan leads to an expanded state, none of
      which is a singleton. */
  lemma {:induction false} ExhaustedReachesExpanded(g: Grid, init: set<Pos>, visited: set<set<Pos>>, expanded: set<set<Pos>>, level: nat, q: seq<Action>)
    requires Rectangular(g) && SearchOk(g, init, [], visited, expanded, level)
    ensures Run(g, init, q) in expanded
    decreases |q|
  {
    if q != [] {
      ExhaustedReachesExpanded(g, init, visited, expanded, level, q[..|q| - 1]);
    } else {
      assert init in visited;
    }
  }

  /** `find_optimal_sequence`: breadth-first search from the set of all
      possible positions, trying actions in the order LEFT, RIGHT, UP, DOWN
      and never enqueueing a belief state twice. It returns the first plan
      whose belief state is a singleton; that plan localizes, no shorter plan
      does, and no plan of the same length that tries an earlier action at
      the first difference does. When no plan localizes it returns `[]`. */
  method FindOptimalSequence(g: Grid) returns (plan: seq<Action>)
    requires Rectangular(g) && |g| > 0
    ensures Localizes(g, AllPossiblePositions(g), plan) || (plan == [] && !CanLocalize(g))
    ensures forall q :: |q| < |plan| ==> !Localizes(g, AllPossiblePositions(g), q)
    ensures forall q :: LexLess(q, plan) ==> !Localizes(g, AllPossiblePositions(g), q)
    ensures |AllPossiblePositions(g)| == 1 ==> plan == []
  {
    var init := AllPossiblePositions(g);
    var queue: seq<Entry> := [(init, [])];
    var visited: set<set<Pos>> := {init};
    ghost var expanded: set<set<Pos>> := {};
    ghost var level: nat := 0;
    assert queue[0].0 == init;
    while queue != []
      invariant SearchOk(g, init, queue, visited, expanded, level)
      decreases Subsets(init) - visited, |queue|
    {
      var current, actions := queue[0].0, queue[0].1;
      if |actions| > level {
        LevelUp(g, init, queue, visited, expanded, level);
        level := level + 1;
      }
      if |current| == 1 {
        FrontIsLeast(g, init, queue, visited, expanded, level);
        return actions;
      }
      StartExpand(g, init, queue, visited, expanded, level);
      ghost var visited0, n0 := visited, |queue| - 1;
      queue, visited := ExpandFront(g, init, queue[1..], visited, expanded, level, current, actions);
      FinishExpand(g, init, queue, visited, expanded, level, current, actions, n0);
      expanded := expanded + {current};
      if visited != visited0 {
        UnseenShrinks(init, visited0, visited);
      }
    }
    ExhaustedCannotLocalize(g, init, visited, expanded, level);
    return [];
  }

  /** The inner loop of `find_optimal_sequence`: tries the actions in order
      and enqueues each successor not seen before, together with the plan
      that reaches it. */
  method ExpandFront(g: Grid, init: set<Pos>, queue: seq<Entry>, visited: set<set<Pos>>, ghost expanded: set<set<Pos>>,
                     ghost level: nat, cur: set<Pos>, plan: seq<Action>)
    returns (queue': seq<Entry>, visited': set<set<Pos>>)
    requires Rectangular(g) && init == AllPossiblePositions(g)
    requires ExpandOk(g, init, queue, visited, expanded, level, cur, plan, |queue|, 0)
    ensures ExpandOk(g, init, queue', visited', expanded, level, cur, plan, |queue|, |Actions|)
    ensures visited <= visited' && (visited' == visited ==> queue' == queue)
  {
    queue', visited' := queue, visited;
    for i := 0 to |Actions|
      invariant ExpandOk(g, init, queue', visited', expanded, level, cur, plan, |queue|, i)
      invariant visited <= visited' && (visited' == visited ==> queue' == queue)
    {
      var next := SimulateMove(g, cur, Actions[i]);
      if next !in visited' {
        PushNew(g, init, queue', visited', expanded, level, cur, plan, |queue|, i);
        visited' := visited' + {next};
        queue' := queue' + [(next, plan + [Actions[i]])];
      } else {
        SkipSeen(g, init, queue', visited', expanded, level, cur, plan, |queue|, i);
      }
    }
  }

  /** `solve`: the search above. */
  method Solve(g: Grid) returns (plan: seq<Action>)
    requires Rectangular(g) && |g| > 0
    ensures Localizes(g, AllPossiblePositions(g), plan) || (plan == [] && !CanLocalize(g))
    ensures forall q :: PlanLess(q, plan) ==> !Localizes(g, AllPossiblePositions(g), q)
  {
    plan := FindOptimalSequence(g);
  }

  /** The row `[OPEN, OPEN, BLOCKED]`. */
  function OneByThree(): (g: Grid)
    ensures Rectangular(g) && |g| == 1 && Cols(g) == 3
  {
    [[Open, Open, Blocked]]
  }

  /** Both open cells of the row are possible starts. */
  lemma OneByThreeStarts()
    ensures AllPossiblePositions(OneByThree()) == {(0, 0), (0, 1)}
  {
    var g := OneByThree();
    var init := AllPossiblePositions(g);
    forall p | p in init
      ensures p == (0, 0) || p == (0, 1)
    {
      assert Passable(g, p);
    }
    assert Passable(g, (0, 0)) && Passable(g, (0, 1));
  }

  /** One step LEFT leaves the robot on the first cell wherever it started. */
  lemma OneByThreeLeft()
    ensures Run(OneByThree(), {(0, 0), (0, 1)}, [Left]) == {(0, 0)}
  {
    var g, init := OneByThree(), {(0, 0), (0, 1)};
    assert Run(g, init, [Left]) == SimulateMove(g, init, Left);
    assert Dest(g, (0, 0), Left) == (0, 0);
    assert Dest(g, (0, 1), Left) == (0, 0);
    assert SimulateMove(g, init, Left) == {Dest(g, (0, 0), Left), Dest(g, (0, 1), Left)};
  }

  /** Among one-step plans, `[LEFT]` comes first. */
  lemma LeftIsFirstStep(p: seq<Action>)
    requires |p| == 1
    ensures p == [Left] || PlanLess([Left], p)
  {
    if p[0] != Left {
      assert [Left][..0] == p[..0];
      assert Index(Left) < Index(p[0]);
    } else {
      assert p == [p[0]];
    }
  }

  /** On the row `[OPEN, OPEN, BLOCKED]` the search returns `[LEFT]`: the
      empty plan leaves two possible cells, and LEFT is the first action
      tried, so no plan before `[LEFT]` localizes. */
  method LocalizeOneByThree() returns (plan: seq<Action>)
    ensures plan == [Left]
  {
    var g := OneByThree();
    plan := FindOptimalSequence(g);
    OneByThreeStarts();
    OneByThreeLeft();
    var init := AllPossiblePositions(g);
    assert |Run(g, init, [])| == 2;
    assert Localizes(g, init, [Left]);
    assert |plan| == 1;
    LeftIsFirstStep(plan);
  }
}
