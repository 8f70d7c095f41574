/** Plans (action sequences) compared the way a breadth-first search that
    tries actions in the order of `Actions` meets them: shorter first, and
    among plans of one length, by the first action where they differ. */
module Plans {
  import opened Types

  /** Same length, and at the first difference `p` takes the earlier action. */
  ghost predicate LexLess(p: seq<Action>, q: seq<Action>) {
    |p| == |q| && exists k :: 0 <= k < |p| && p[..k] == q[..k] && Index(p[k]) < Index(q[k])
  }

  /** Shorter, or as long and lexicographically smaller. */
  ghost predicate PlanLess(p: seq<Action>, q: seq<Action>) {
    |p| < |q| || LexLess(p, q)
  }

  lemma LexIrreflexive(p: seq<Action>)
    ensures !LexLess(p, p)
  {
  }

  lemma LexTransitive(p: seq<Action>, q: seq<Action>, r: seq<Action>)
    requires LexLess(p, q) && LexLess(q, r)
    ensures LexLess(p, r)
  {
    var k1 :| 0 <= k1 < |p| && p[..k1] == q[..k1] && Index(p[k1]) < Index(q[k1]);
    var k2 :| 0 <= k2 < |q| && q[..k2] == r[..k2] && Index(q[k2]) < Index(r[k2]);
    if k1 < k2 {
      assert q[..k2][..k1] == q[..k1];
      assert r[..k2][..k1] == r[..k1];
      assert q[k1] == q[..k2][k1] == r[k1];
      assert p[..k1] == r[..k1] && Index(p[k1]) < Index(r[k1]);
    } else if k2 < k1 {
      assert p[..k1][..k2] == p[..k2];
      assert q[..k1][..k2] == q[..k2];
      assert p[k2] == p[..k1][k2] == q[k2];
      assert p[..k2] == r[..k2] && Index(p[k2]) < Index(r[k2]);
    } else {
      assert p[..k1] == r[..k1] && Index(p[k1]) < Index(r[k1]);
    }
  }

  lemma PlanTransitive(p: seq<Action>, q: seq<Action>, r: seq<Action>)
    requires PlanLess(p, q) && PlanLess(q, r)
    ensures PlanLess(p, r)
  {
    if LexLess(p, q) && LexLess(q, r) {
      LexTransitive(p, q, r);
    }
  }

  /** Extending two plans keeps their order. */
  lemma LexAppend(p: seq<Action>, q: seq<Action>, a: Action, b: Action)
    requires LexLess(p, q)
    ensures LexLess(p + [a], q + [b])
  {
    var k :| 0 <= k < |p| && p[..k] == q[..k] && Index(p[k]) < Index(q[k]);
    assert (p + [a])[..k] == p[..k] && (q + [b])[..k] == q[..k];
    assert (p + [a])[k] == p[k] && (q + [b])[k] == q[k];
  }

  /** One plan extended by two actions: the earlier action comes first. */
  lemma LexLastAction(p: seq<Action>, a: Action, b: Action)
    requires Index(a) < Index(b)
    ensures LexLess(p + [a], p + [b])
  {
    var k := |p|;
    assert (p + [a])[..k] == p == (p + [b])[..k];
    assert (p + [a])[k] == a && (p + [b])[k] == b;
  }

  /** The order of two extended plans comes from their prefixes, or, when
      those agree, from the last actions. */
  lemma LexSplit(p: seq<Action>, q: seq<Action>, a: Action, b: Action)
    requires |p| == |q| && LexLess(p + [a], q + [b])
    ensures LexLess(p, q) || (p == q && Index(a) < Index(b))
  {
    var pa, qb := p + [a], q + [b];
    var k :| 0 <= k < |pa| && pa[..k] == qb[..k] && Index(pa[k]) < Index(qb[k]);
    if k < |p| {
      assert pa[..k] == p[..k] && qb[..k] == q[..k];
      assert pa[k] == p[k] && qb[k] == q[k];
    } else {
      assert p == pa[..k] == qb[..k] == q;
    }
  }

  /** A plan of length `n + 1` is its first `n` actions plus its last. */
  lemma SplitLast(p: seq<Action>)
    requires |p| > 0
    ensures p == p[..|p| - 1] + [p[|p| - 1]]
  {
  }
}
