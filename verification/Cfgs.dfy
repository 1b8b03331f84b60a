/** Control flow graphs: the edge lists of graph.c and the paths through them. Dominance is defined by paths from
    block 0, and everything that the passes conclude about dominators comes down to paths being extended, cut and
    joined. */
module Cfgs {

  /** `succ[b]` and `pred[b]` list the edges at block `b` in the order `add_graph_edge` appended them.
      Parallel edges occur: a conditional jump to the next block has two. */
  datatype Cfg = Cfg(succ: seq<seq<nat>>, pred: seq<seq<nat>>) {

    ghost predicate Valid() {
      && 0 < |succ| == |pred|
      && (forall a, b | 0 <= a < |succ| && b in succ[a] :: b < |succ|)
      && (forall a, b | 0 <= b < |pred| && a in pred[b] :: a < |succ|)
      && (forall a, b | 0 <= a < |succ| && 0 <= b < |succ| :: multiset(succ[a])[b] == multiset(pred[b])[a])
    }

    ghost predicate Edge(a: nat, b: nat) {
      a < |succ| && b < |succ| && b in succ[a]
    }

    lemma EdgeBothWays(a: nat, b: nat)
      requires Valid() && a < |succ| && b < |succ|
      ensures b in succ[a] <==> a in pred[b]
    {
      assert b in multiset(succ[a]) <==> a in multiset(pred[b]);
    }

    lemma PredEdge(a: nat, b: nat)
      requires Valid() && b < |succ| && a in pred[b]
      ensures Edge(a, b)
    {
      EdgeBothWays(a, b);
    }
  }

  ghost predicate IsPath(g: Cfg, p: seq<nat>) {
    && 0 < |p|
    && (forall i | 0 <= i < |p| :: p[i] < |g.succ|)
    && (forall i | 0 < i < |p| :: g.Edge(p[i - 1], p[i]))
  }

  /** A path from `a` to `b`; the one-element path joins a block to itself. */
  ghost predicate Joins(g: Cfg, p: seq<nat>, a: nat, b: nat) {
    IsPath(g, p) && p[0] == a && p[|p| - 1] == b
  }

  ghost predicate Reachable(g: Cfg, b: nat) {
    exists p :: Joins(g, p, 0, b)
  }

  /** Every path from block 0 to `b` passes through `d`. */
  ghost predicate Dominates(g: Cfg, d: nat, b: nat) {
    forall p | Joins(g, p, 0, b) :: d in p
  }

  ghost predicate StrictlyDominates(g: Cfg, d: nat, b: nat) {
    d != b && Dominates(g, d, b)
  }

  lemma PathExtends(g: Cfg, p: seq<nat>, a: nat, b: nat, c: nat)
    requires Joins(g, p, a, b) && g.Edge(b, c)
    ensures Joins(g, p + [c], a, c)
  {
    var q := p + [c];
    forall i | 0 < i < |q| ensures g.Edge(q[i - 1], q[i]) {
      if i < |p| { assert q[i - 1] == p[i - 1] && q[i] == p[i]; }
    }
  }

  lemma PathConcat(g: Cfg, p: seq<nat>, q: seq<nat>, a: nat, b: nat, c: nat)
    requires Joins(g, p, a, b) && Joins(g, q, b, c)
    ensures Joins(g, p + q[1..], a, c)
    ensures forall x :: x in p + q[1..] ==> x in p || x in q
  {
    var r := p + q[1..];
    forall i | 0 < i < |r| ensures g.Edge(r[i - 1], r[i]) {
      if i < |p| {
        assert r[i - 1] == p[i - 1] && r[i] == p[i];
      } else {
        var k := i - |p| + 1;
        assert r[i] == q[k] && r[i - 1] == q[k - 1];
        assert g.Edge(q[k - 1], q[k]);
      }
    }
  }

  lemma PathPrefix(g: Cfg, p: seq<nat>, k: nat)
    requires IsPath(g, p) && 0 < k <= |p|
    ensures Joins(g, p[..k], p[0], p[k - 1])
  {
    var q := p[..k];
    forall i | 0 < i < |q| ensures g.Edge(q[i - 1], q[i]) {
      assert q[i - 1] == p[i - 1] && q[i] == p[i];
    }
  }

  lemma PathSuffix(g: Cfg, p: seq<nat>, k: nat)
    requires IsPath(g, p) && k < |p|
    ensures Joins(g, p[k..], p[k], p[|p| - 1])
  {
    var q := p[k..];
    forall i | 0 < i < |q| ensures g.Edge(q[i - 1], q[i]) {
      assert q[i - 1] == p[k + i - 1] && q[i] == p[k + i];
    }
  }

  /** A path of two or more blocks enters its end by an edge. */
  lemma LastEdge(g: Cfg, p: seq<nat>)
    requires g.Valid() && IsPath(g, p) && 1 < |p|
    ensures g.Edge(p[|p| - 2], p[|p| - 1]) && p[|p| - 2] in g.pred[p[|p| - 1]]
  {
    assert g.Edge(p[|p| - 1 - 1], p[|p| - 1]);
    g.EdgeBothWays(p[|p| - 2], p[|p| - 1]);
  }

  lemma ZeroReachable(g: Cfg)
    requires g.Valid()
    ensures Reachable(g, 0)
  {
    assert Joins(g, [0], 0, 0);
  }

  lemma ReachableStep(g: Cfg, a: nat, b: nat)
    requires Reachable(g, a) && g.Edge(a, b)
    ensures Reachable(g, b)
  {
    var p :| Joins(g, p, 0, a);
    PathExtends(g, p, 0, a, b);
  }

  /** Reachable blocks lie in any set that holds block 0 and is closed under edges. */
  lemma ReachableIn(g: Cfg, s: set<nat>, b: nat)
    requires Reachable(g, b) && 0 in s
    requires forall x, y | x in s && g.Edge(x, y) :: y in s
    ensures b in s
  {
    var p :| Joins(g, p, 0, b);
    PathStaysIn(g, s, p, |p| - 1);
  }

  lemma {:induction false} PathStaysIn(g: Cfg, s: set<nat>, p: seq<nat>, k: nat)
    requires IsPath(g, p) && p[0] in s && k < |p|
    requires forall x, y | x in s && g.Edge(x, y) :: y in s
    ensures p[k] in s
  {
    if k > 0 {
      PathStaysIn(g, s, p, k - 1);
      assert g.Edge(p[k - 1], p[k]);
    }
  }

  /** Whatever dominates `b` and is not `b` dominates each reachable predecessor of `b`. */
  lemma DominatesPred(g: Cfg, d: nat, p: nat, b: nat)
    requires Dominates(g, d, b) && d != b && g.Edge(p, b)
    ensures Dominates(g, d, p)
  {
    forall q | Joins(g, q, 0, p) ensures d in q {
      PathExtends(g, q, 0, p, b);
      assert d in q + [b];
    }
  }

  lemma DominatesTrans(g: Cfg, a: nat, b: nat, c: nat)
    requires Dominates(g, a, b) && Dominates(g, b, c)
    ensures Dominates(g, a, c)
  {
    forall p | Joins(g, p, 0, c) ensures a in p {
      var k :| 0 <= k < |p| && p[k] == b;
      PathPrefix(g, p, k + 1);
      assert a in p[..k + 1];
    }
  }

  lemma DominatorReachable(g: Cfg, d: nat, b: nat)
    requires Reachable(g, b) && Dominates(g, d, b)
    ensures Reachable(g, d) && d < |g.succ|
  {
    var p :| Joins(g, p, 0, b);
    var k :| 0 <= k < |p| && p[k] == d;
    PathPrefix(g, p, k + 1);
  }
}
