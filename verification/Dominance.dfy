/** The shrinking-set computation of dominators (make_block_dominance, ssa.c:278-339). */
module Dominance {
  import opened Cfgs

  ghost predicate PredecessorFree(g: Cfg, b: nat) {
    b < |g.pred| && g.pred[b] == []
  }

  /** Every path to `n` from a block without predecessors passes through `d`. */
  ghost predicate OnEveryEntryPath(g: Cfg, d: nat, n: nat) {
    forall s, p | PredecessorFree(g, s) && Joins(g, p, s, n) :: d in p
  }

  function AllBlocks(n: nat): (s: set<nat>)
    ensures forall b: nat :: b in s <==> b < n
  {
    if n == 0 then {} else AllBlocks(n - 1) + {n - 1}
  }

  /** {i} united with the intersection of the predecessors' sets, or just {i} without predecessors. */
  ghost function Equation(g: Cfg, dom: seq<set<nat>>, i: nat): set<nat>
    requires g.Valid() && |dom| == |g.succ| && i < |dom|
  {
    if g.pred[i] == [] then {i}
    else {i} + set d | d in AllBlocks(|dom|) && forall p | p in g.pred[i] :: d in dom[p]
  }

  /** The sets hold only blocks and every true dominator, and recomputing one can only shrink it. */
  ghost predicate Above(g: Cfg, dom: seq<set<nat>>)
    requires g.Valid()
  {
    && |dom| == |g.succ|
    && (forall n | 0 <= n < |dom| :: dom[n] <= AllBlocks(|dom|))
    && (forall n, d: nat | 0 <= n < |dom| && d < |dom| && OnEveryEntryPath(g, d, n) :: d in dom[n])
    && (forall n | 0 <= n < |dom| :: Equation(g, dom, n) <= dom[n])
  }

  ghost function TotalSize(dom: seq<set<nat>>): nat {
    if dom == [] then 0 else |dom[0]| + TotalSize(dom[1..])
  }

  lemma ProperSubsetSize(a: set<nat>, b: set<nat>)
    requires a < b
    ensures |a| < |b|
  {
    assert b == a + (b - a);
    assert |b| == |a| + |b - a|;
    assert b - a != {};
  }

  lemma {:induction false} TotalSizeShrinks(dom: seq<set<nat>>, i: nat, s: set<nat>)
    requires i < |dom| && |s| < |dom[i]|
    ensures TotalSize(dom[i := s]) < TotalSize(dom)
  {
    var e := dom[i := s];
    if i == 0 {
      assert e[1..] == dom[1..];
    } else {
      assert e[1..] == dom[1..][i - 1 := s];
      TotalSizeShrinks(dom[1..], i - 1, s);
    }
  }

  /** A true dominator survives the equation when the predecessors' sets hold their own. */
  lemma EquationKeepsDominator(g: Cfg, dom: seq<set<nat>>, i: nat, d: nat)
    requires g.Valid() && Above(g, dom) && i < |dom| && d < |dom| && OnEveryEntryPath(g, d, i)
    ensures d in Equation(g, dom, i)
  {
    if g.pred[i] == [] {
      assert Joins(g, [i], i, i);
      assert d in [i];
    } else if d != i {
      forall p | p in g.pred[i] ensures d in dom[p] {
        g.PredEdge(p, i);
        forall s, q | PredecessorFree(g, s) && Joins(g, q, s, p) ensures d in q {
          PathExtends(g, q, s, p, i);
          assert d in q + [i];
        }
      }
    }
  }

  lemma UpdateKeepsAbove(g: Cfg, dom: seq<set<nat>>, i: nat)
    requires g.Valid() && Above(g, dom) && i < |dom|
    ensures Above(g, dom[i := Equation(g, dom, i)])
  {
    var e := dom[i := Equation(g, dom, i)];
    assert forall n | 0 <= n < |dom| :: e[n] <= dom[n];
    forall n | 0 <= n < |dom| ensures Equation(g, e, n) <= e[n] {
      assert Equation(g, e, n) <= Equation(g, dom, n);
    }
    forall n, d: nat | 0 <= n < |dom| && d < |dom| && OnEveryEntryPath(g, d, n) ensures d in e[n] {
      if n == i { EquationKeepsDominator(g, dom, i, d); }
    }
  }

  /** In a solution of the equations every member of a set lies on every entry path. */
  lemma {:induction false} SolutionOnPath(g: Cfg, dom: seq<set<nat>>, d: nat, s: nat, p: seq<nat>, n: nat)
    requires g.Valid() && |dom| == |g.succ|
    requires forall i | 0 <= i < |dom| :: dom[i] == Equation(g, dom, i)
    requires PredecessorFree(g, s) && Joins(g, p, s, n) && d in dom[n]
    ensures d in p
    decreases |p|
  {
    assert dom[n] == Equation(g, dom, n);
    if |p| > 1 && d != n {
      var m := p[|p| - 2];
      LastEdge(g, p);
      PathPrefix(g, p, |p| - 1);
      SolutionOnPath(g, dom, d, s, p[..|p| - 1], m);
    }
  }

  lemma SolutionIsExact(g: Cfg, dom: seq<set<nat>>, n: nat, d: nat)
    requires g.Valid() && Above(g, dom) && n < |dom| && d < |dom|
    requires forall i | 0 <= i < |dom| :: dom[i] == Equation(g, dom, i)
    ensures d in dom[n] <==> OnEveryEntryPath(g, d, n)
  {
    if d in dom[n] {
      forall s, p | PredecessorFree(g, s) && Joins(g, p, s, n) ensures d in p {
        SolutionOnPath(g, dom, d, s, p, n);
      }
    }
  }

  lemma StartIsAbove(g: Cfg, dom: seq<set<nat>>)
    requires g.Valid() && PredecessorFree(g, 0) && |dom| == |g.succ|
    requires dom[0] == {0} && forall n | 0 < n < |dom| :: dom[n] == AllBlocks(|dom|)
    ensures Above(g, dom)
  {
    forall d: nat | d < |dom| && OnEveryEntryPath(g, d, 0) ensures d == 0 { OnlyZeroAbove(g, d); }
    forall n | 0 <= n < |dom|
      ensures Equation(g, dom, n) <= AllBlocks(|dom|) && (n == 0 ==> Equation(g, dom, n) <= {0})
    {
      EquationBounded(g, dom, n);
    }
    hide Equation, OnEveryEntryPath, Cfg.Valid;
  }

  lemma OnlyZeroAbove(g: Cfg, d: nat)
    requires PredecessorFree(g, 0) && g.Valid() && OnEveryEntryPath(g, d, 0)
    ensures d == 0
  {
    assert Joins(g, [0], 0, 0);
    assert d in [0];
  }

  lemma EquationBounded(g: Cfg, dom: seq<set<nat>>, n: nat)
    requires g.Valid() && |dom| == |g.succ| && n < |dom|
    ensures Equation(g, dom, n) <= AllBlocks(|dom|) && (PredecessorFree(g, n) ==> Equation(g, dom, n) == {n})
  {
  }

  /** The sets of the first `k` predecessors of `i` all hold `d`. */
  ghost predicate InFirst(g: Cfg, dom: seq<set<nat>>, i: nat, k: nat, d: nat)
    requires g.Valid() && |dom| == |g.succ| && i < |dom| && k <= |g.pred[i]|
  {
    forall p | p in g.pred[i][..k] :: p < |dom| && d in dom[p]
  }

  lemma InFirstStep(g: Cfg, dom: seq<set<nat>>, i: nat, k: nat, d: nat)
    requires g.Valid() && |dom| == |g.succ| && i < |dom| && k < |g.pred[i]|
    ensures g.pred[i][k] < |dom|
    ensures InFirst(g, dom, i, k + 1, d) <==> InFirst(g, dom, i, k, d) && d in dom[g.pred[i][k]]
  {
    assert g.pred[i][k] in g.pred[i];
    assert g.pred[i][..k + 1] == g.pred[i][..k] + [g.pred[i][k]];
  }

  lemma EquationHas(g: Cfg, dom: seq<set<nat>>, i: nat, d: nat)
    requires g.Valid() && |dom| == |g.succ| && i < |dom|
    ensures d in Equation(g, dom, i) <==>
      d == i || (g.pred[i] != [] && d in AllBlocks(|dom|) && forall p | p in g.pred[i] :: d in dom[p])
  {
  }

  lemma AllAreFirst(g: Cfg, dom: seq<set<nat>>, i: nat, d: nat)
    requires g.Valid() && |dom| == |g.succ| && i < |dom|
    ensures InFirst(g, dom, i, |g.pred[i]|, d) <==> forall p | p in g.pred[i] :: p < |dom| && d in dom[p]
  {
    var all := g.pred[i];
    assert all[..|all|] == all;
  }

  lemma InAllPreds(g: Cfg, dom: seq<set<nat>>, i: nat, d: nat)
    requires g.Valid() && |dom| == |g.succ| && i < |dom|
    ensures d in Equation(g, dom, i) <==>
      d == i || (g.pred[i] != [] && d in AllBlocks(|dom|) && InFirst(g, dom, i, |g.pred[i]|, d))
  {
    hide Equation, AllBlocks, InFirst;
    EquationHas(g, dom, i, d);
    AllAreFirst(g, dom, i, d);
  }

  /** One recomputation of block `i`'s set from its predecessors. */
  method Recompute(g: Cfg, dom: array<set<nat>>, i: nat) returns (s: set<nat>)
    requires g.Valid() && dom.Length == |g.succ| && i < dom.Length
    ensures s == Equation(g, dom[..], i)
  {
    ghost var cur := dom[..];
    var intersections := AllBlocks(dom.Length);
    var gotPredecessors := false;
    for e := 0 to |g.pred[i]|
      invariant gotPredecessors == (e > 0)
      invariant forall d :: d in intersections <==> d in AllBlocks(dom.Length) && InFirst(g, cur, i, e, d)
    {
      hide InFirst;
      forall d { InFirstStep(g, cur, i, e, d); }
      assert g.pred[i][e] in g.pred[i];
      intersections := intersections * dom[g.pred[i][e]];
      gotPredecessors := true;
    }
    if !gotPredecessors {
      intersections := {};
    }
    s := {i} + intersections;
    forall d ensures d in s <==> d in Equation(g, cur, i) { InAllPreds(g, cur, i, d); }
  }

  /** The first `k` sets solve their equations. */
  ghost predicate Solved(g: Cfg, dom: seq<set<nat>>, k: nat)
    requires g.Valid() && |dom| == |g.succ|
  {
    forall i | 0 <= i < k && i < |dom| :: dom[i] == Equation(g, dom, i)
  }

  lemma NothingSolved(g: Cfg, dom: seq<set<nat>>)
    requires g.Valid() && |dom| == |g.succ|
    ensures Solved(g, dom, 0)
  {
  }

  lemma SolvedNext(g: Cfg, dom: seq<set<nat>>, i: nat)
    requires g.Valid() && |dom| == |g.succ| && i < |dom| && Solved(g, dom, i) && dom[i] == Equation(g, dom, i)
    ensures Solved(g, dom, i + 1)
  {
    hide Equation;
  }

  /** Changing a set to what its equation says shrinks it, and keeps true dominators. */
  lemma ChangeShrinks(g: Cfg, dom: seq<set<nat>>, i: nat)
    requires g.Valid() && Above(g, dom) && i < |dom| && Equation(g, dom, i) != dom[i]
    ensures Above(g, dom[i := Equation(g, dom, i)])
    ensures TotalSize(dom[i := Equation(g, dom, i)]) < TotalSize(dom)
  {
    hide Equation, OnEveryEntryPath, TotalSize;
    var s := Equation(g, dom, i);
    UpdateKeepsAbove(g, dom, i);
    assert s <= dom[i];
    ProperSubsetSize(s, dom[i]);
    TotalSizeShrinks(dom, i, s);
  }

  /** One sweep over the blocks. A sweep that changes nothing has found a solution; any other shrinks the sets. */
  method Sweep(g: Cfg, dom: array<set<nat>>) returns (changed: bool)
    requires g.Valid() && dom.Length == |g.succ| && Above(g, dom[..])
    modifies dom
    ensures Above(g, dom[..])
    ensures changed ==> TotalSize(dom[..]) < TotalSize(old(dom[..]))
    ensures !changed ==> dom[..] == old(dom[..]) && Solved(g, dom[..], dom.Length)
  {
    hide Above, Equation, TotalSize, Solved;
    changed := false;
    ghost var cur := dom[..];
    NothingSolved(g, cur);
    for i := 0 to dom.Length
      invariant cur == dom[..] && Above(g, cur)
      invariant if changed then TotalSize(cur) < TotalSize(old(dom[..])) else cur == old(dom[..]) && Solved(g, cur, i)
    {
      var s := Recompute(g, dom, i);
      if s != dom[i] {
        ChangeShrinks(g, cur, i);
        dom[i] := s;
        cur := cur[i := s];
        changed := true;
      } else if !changed {
        SolvedNext(g, cur, i);
      }
    }
  }

  method MakeBlockDominance(g: Cfg) returns (dom: array<set<nat>>)
    requires g.Valid() && PredecessorFree(g, 0)
    ensures fresh(dom) && dom.Length == |g.succ|
    ensures forall n, d: nat | 0 <= n < dom.Length && d < dom.Length :: d in dom[n] <==> OnEveryEntryPath(g, d, n)
    ensures forall n | 0 <= n < dom.Length :: dom[n] <= AllBlocks(dom.Length)
  {
    var blockCount := |g.succ|;
    dom := new set<nat>[blockCount](i => if i == 0 then {0} else AllBlocks(blockCount));
    StartIsAbove(g, dom[..]);
    var changed := true;
    while changed
      invariant Above(g, dom[..])
      invariant !changed ==> Solved(g, dom[..], dom.Length)
      decreases TotalSize(dom[..]), changed
    {
      changed := Sweep(g, dom);
    }
    forall n, d: nat | 0 <= n < dom.Length && d < dom.Length ensures d in dom[n] <==> OnEveryEntryPath(g, d, n) {
      SolutionIsExact(g, dom[..], n, d);
    }
  }

  /** Where every block is reachable from block 0, the sets are exactly the dominators. */
  lemma EntryPathsAreDominance(g: Cfg, d: nat, n: nat)
    requires g.Valid() && PredecessorFree(g, 0) && n < |g.succ|
    requires forall b: nat | b < |g.succ| :: Reachable(g, b)
    ensures OnEveryEntryPath(g, d, n) <==> Dominates(g, d, n)
  {
    forall s: nat | PredecessorFree(g, s) ensures s == 0 {
      assert Reachable(g, s);
      var p :| Joins(g, p, 0, s);
      if |p| > 1 { LastEdge(g, p); }
    }
    if OnEveryEntryPath(g, d, n) {
      forall p | Joins(g, p, 0, n) ensures d in p {
        assert PredecessorFree(g, 0) && Joins(g, p, 0, n);
      }
    }
  }
}
