/** Dominance frontiers (make_block_dominance_frontiers, ssa.c:455-484). */
module Frontiers {
  import opened Cfgs
  import opened Dominance
  import opened DomTree
  import opened Idom

  /** `b` dominates the reachable predecessor `p` of `d` without strictly dominating `d`. */
  ghost predicate FrontierVia(g: Cfg, d: nat, b: nat, p: nat) {
    g.Edge(p, d) && Reachable(g, p) && Dominates(g, b, p) && !StrictlyDominates(g, b, d)
  }

  ghost predicate InFrontier(g: Cfg, d: nat, b: nat) {
    exists p :: FrontierVia(g, d, b, p)
  }

  /** `idoms` is the array MakeImmediateDominators returns, and `t` the tree in it. */
  ghost predicate Idoms(g: Cfg, rpos: seq<int>, t: seq<int>, idoms: seq<int>) {
    && g.Valid() && PredecessorFree(g, 0) && |t| > 0 && DominatorTree(g, rpos, t)
    && idoms == t[0 := -1]
  }

  /** On the chain of `p`, the blocks below the link of `i` are those that do not strictly dominate `i`. */
  lemma BelowLink(g: Cfg, rpos: seq<int>, t: seq<int>, i: nat, p: nat, x: nat)
    requires g.Valid() && DominatorTree(g, rpos, t) && In(t, i) && g.Edge(p, i) && In(t, p) && i != 0
    requires Anc(rpos, t, x, p)
    ensures Anc(rpos, t, t[i], p)
    ensures StrictlyDominates(g, x, i) <==> Anc(rpos, t, x, t[i])
  {
    assert Anc(rpos, t, t[i], i);
    AncRank(rpos, t, t[i], i);
    DominatesPred(g, t[i], p, i);
    if x == i && Anc(rpos, t, x, t[i]) { AncRank(rpos, t, i, t[i]); }
  }

  /** From `was` to `now`, `i` was added to the sets of exactly the blocks on the chain from `p` up to before
      `runner`. */
  ghost predicate Entered(rpos: seq<int>, t: seq<int>, was: seq<set<nat>>, now: seq<set<nat>>, i: nat, p: int,
                          runner: int)
    requires Tree(rpos, t) && In(t, p) && In(t, runner)
  {
    && |was| == |now| == |t|
    && forall b | In(t, b) ::
         now[b] == if Anc(rpos, t, b, p) && !Anc(rpos, t, b, runner) then was[b] + {i} else was[b]
  }

  lemma WalkStep(rpos: seq<int>, t: seq<int>, was: seq<set<nat>>, now: seq<set<nat>>, i: nat, p: int, runner: int)
    requires Tree(rpos, t) && In(t, p) && In(t, runner) && In(t, i) && i != 0
    requires Anc(rpos, t, runner, p) && Anc(rpos, t, t[i], runner) && runner != t[i]
    requires Entered(rpos, t, was, now, i, p, runner)
    ensures runner != 0 && In(t, t[runner]) && Anc(rpos, t, t[runner], p) && Anc(rpos, t, t[i], t[runner])
    ensures Entered(rpos, t, was, now[runner := now[runner] + {i}], i, p, t[runner])
  {
    assert Anc(rpos, t, t[runner], runner);
    AncTrans(rpos, t, t[runner], runner, p);
    if Anc(rpos, t, runner, t[runner]) { AncRank(rpos, t, runner, t[runner]); }
  }

  lemma WalkEnd(g: Cfg, rpos: seq<int>, t: seq<int>, was: seq<set<nat>>, now: seq<set<nat>>, i: nat, p: nat)
    requires g.Valid() && DominatorTree(g, rpos, t) && In(t, p) && In(t, i) && i != 0 && g.Edge(p, i)
    requires Entered(rpos, t, was, now, i, p, t[i])
    ensures forall b: nat | In(t, b) :: now[b] == if FrontierVia(g, i, b, p) then was[b] + {i} else was[b]
  {
    hide Reachable, Dominates, Anc;
    forall b: nat | In(t, b) ensures now[b] == if FrontierVia(g, i, b, p) then was[b] + {i} else was[b] {
      if Anc(rpos, t, b, p) { BelowLink(g, rpos, t, i, p, b); }
    }
  }

  /** Walk up from the predecessor `p` of `i`, entering `i` in the frontier of every block met before `idom[i]`. */
  method EnterFrontiers(g: Cfg, idoms: array<int>, df: array<set<nat>>, i: nat, p: nat,
                        ghost rpos: seq<int>, ghost t: seq<int>)
    requires Idoms(g, rpos, t, idoms[..]) && df.Length == idoms.Length && idoms as object != df && i != 0
      && g.Edge(p, i)
    modifies df
    ensures forall b: nat | In(t, b) ::
              df[b] == if FrontierVia(g, i, b, p) then old(df[b]) + {i} else old(df[b])
    ensures forall b | 0 <= b < df.Length :: df[b] <= old(df[b]) + {i}
  {
    hide Reachable, Dominates, Anc, Entered;
    ghost var was := df[..];
    var runner: int := p;
    if In(t, p) {
      ReachableStep(g, p, i);
      StartWalk(g, rpos, t, was, i, p);
    }
    while runner != idoms[i] && runner != -1
      invariant In(t, p) ==> In(t, runner) && Anc(rpos, t, runner, p) && Anc(rpos, t, t[i], runner)
                             && Entered(rpos, t, was, df[..], i, p, runner)
      invariant !In(t, p) ==> (runner == p || runner == -1) && forall b | In(t, b) :: df[b] == was[b]
      invariant forall b | 0 <= b < df.Length :: df[b] <= was[b] + {i}
      decreases if runner == -1 then -1 else if In(t, p) then rpos[runner] else 0
    {
      ghost var now := df[..];
      if In(t, p) { WalkStep(rpos, t, was, now, i, p, runner); }
      df[runner] := df[runner] + {i};
      assert df[..] == now[runner := now[runner] + {i}];
      runner := idoms[runner];
    }
    if In(t, p) { WalkEnd(g, rpos, t, was, df[..], i, p); }
  }

  lemma StartWalk(g: Cfg, rpos: seq<int>, t: seq<int>, df: seq<set<nat>>, i: nat, p: nat)
    requires g.Valid() && DominatorTree(g, rpos, t) && In(t, p) && In(t, i) && i != 0 && g.Edge(p, i) && |df| == |t|
    ensures Anc(rpos, t, p, p) && Anc(rpos, t, t[i], p) && Entered(rpos, t, df, df, i, p, p)
  {
    BelowLink(g, rpos, t, i, p, p);
  }

  /** The only predecessor of a block strictly dominates it, so the block is in no frontier. */
  lemma SinglePredecessor(g: Cfg, rpos: seq<int>, t: seq<int>, i: nat, p: nat, b: nat)
    requires g.Valid() && DominatorTree(g, rpos, t) && In(t, p) && i != 0 && i < |t| && g.pred[i] == [p]
    ensures !FrontierVia(g, i, b, p)
  {
    if FrontierVia(g, i, b, p) {
      forall q | Joins(g, q, 0, i) ensures p in q {
        LastEdge(g, q);
      }
      ReachableStep(g, p, i);
      DominatesTrans(g, b, p, i);
      assert Dominates(g, i, p);
      assert Anc(rpos, t, i, p) && Anc(rpos, t, p, i);
      AncRank(rpos, t, i, p);
      AncRank(rpos, t, p, i);
      NoSelfEntry(g, i);
    }
  }

  /** A block other than 0 whose only predecessor is itself is not reachable. */
  lemma NoSelfEntry(g: Cfg, i: nat)
    requires g.Valid() && i != 0 && i < |g.pred| && g.pred[i] == [i]
    ensures !Reachable(g, i)
  {
    var others := set b: nat | b in AllBlocks(|g.succ|) && b != i;
    forall x, y | x in others && g.Edge(x, y) ensures y in others {
      g.EdgeBothWays(x, y);
    }
    if Reachable(g, i) { ReachableIn(g, others, i); }
  }

  ghost predicate ViaFirst(g: Cfg, i: nat, b: nat, k: nat)
    requires i < |g.pred| && k <= |g.pred[i]|
  {
    exists p :: p in g.pred[i][..k] && FrontierVia(g, i, b, p)
  }

  lemma ViaNext(g: Cfg, i: nat, b: nat, k: nat)
    requires i < |g.pred| && k < |g.pred[i]|
    ensures ViaFirst(g, i, b, k + 1) <==> ViaFirst(g, i, b, k) || FrontierVia(g, i, b, g.pred[i][k])
  {
    hide FrontierVia;
    assert g.pred[i][..k + 1] == g.pred[i][..k] + [g.pred[i][k]];
    if ViaFirst(g, i, b, k) {
      var p :| p in g.pred[i][..k] && FrontierVia(g, i, b, p);
      assert p in g.pred[i][..k + 1];
    }
    if FrontierVia(g, i, b, g.pred[i][k]) { assert g.pred[i][k] in g.pred[i][..k + 1]; }
  }

  lemma ViaAll(g: Cfg, i: nat, b: nat)
    requires g.Valid() && i < |g.pred|
    ensures !ViaFirst(g, i, b, 0)
    ensures ViaFirst(g, i, b, |g.pred[i]|) <==> InFrontier(g, i, b)
  {
    hide Reachable, Dominates;
    assert g.pred[i][..|g.pred[i]|] == g.pred[i];
    if InFrontier(g, i, b) {
      var p :| FrontierVia(g, i, b, p);
      g.EdgeBothWays(p, i);
    }
  }

  lemma FewPredecessors(g: Cfg, rpos: seq<int>, t: seq<int>, i: nat, b: nat)
    requires g.Valid() && PredecessorFree(g, 0) && DominatorTree(g, rpos, t) && i < |g.pred| && |g.pred[i]| <= 1
      && In(t, b)
    ensures !InFrontier(g, i, b)
  {
    hide Dominates, Anc, Reachable;
    if p: nat :| FrontierVia(g, i, b, p) {
      g.EdgeBothWays(p, i);
      assert g.pred[i] == [p];
      SinglePredecessor(g, rpos, t, i, p, b);
    }
  }

  /** Everything block `i` contributes. */
  method FrontiersOfBlock(g: Cfg, idoms: array<int>, df: array<set<nat>>, i: nat, ghost rpos: seq<int>,
                          ghost t: seq<int>)
    requires Idoms(g, rpos, t, idoms[..]) && df.Length == idoms.Length && idoms as object != df && i < |g.pred|
    modifies df
    ensures forall b: nat | In(t, b) :: df[b] == if InFrontier(g, i, b) then old(df[b]) + {i} else old(df[b])
    ensures forall b | 0 <= b < df.Length :: df[b] <= old(df[b]) + {i}
  {
    hide Reachable, Dominates, Anc, FrontierVia, InFrontier, ViaFirst;
    forall b: nat { ViaAll(g, i, b); }
    if |g.pred[i]| > 1 {
      for j := 0 to |g.pred[i]|
        invariant forall b: nat | In(t, b) :: df[b] == if ViaFirst(g, i, b, j) then old(df[b]) + {i} else old(df[b])
        invariant forall b | 0 <= b < df.Length :: df[b] <= old(df[b]) + {i}
      {
        var p := g.pred[i][j];
        assert p in g.pred[i];
        g.PredEdge(p, i);
        forall b: nat { ViaNext(g, i, b, j); }
        EnterFrontiers(g, idoms, df, i, p, rpos, t);
      }
    } else {
      forall b: nat | In(t, b) { FewPredecessors(g, rpos, t, i, b); }
    }
  }

  /** The frontiers of reachable blocks are exact: `d` is in `df[b]` if and only if `b` dominates a predecessor of `d`
      and does not strictly dominate `d`. */
  method MakeDominanceFrontiers(g: Cfg, idoms: array<int>, ghost rpos: seq<int>, ghost t: seq<int>)
    returns (df: array<set<nat>>)
    requires Idoms(g, rpos, t, idoms[..])
    ensures fresh(df) && df.Length == |g.succ|
    ensures forall b: nat, d: nat | In(t, b) :: d in df[b] <==> d < |t| && InFrontier(g, d, b)
    ensures forall b, d | 0 <= b < df.Length && d in df[b] :: d < df.Length
  {
    hide Reachable, Dominates, Anc, InFrontier;
    df := new set<nat>[|g.succ|](_ => {});
    for i := 0 to |g.succ|
      invariant forall b: nat, d: nat | In(t, b) :: d in df[b] <==> d < i && InFrontier(g, d, b)
      invariant forall b, d | 0 <= b < df.Length && d in df[b] :: d < i
    {
      FrontiersOfBlock(g, idoms, df, i, rpos, t);
    }
  }
}
