/** Immediate dominators in reverse postorder (ssa.c:386-447). */
module Idom {
  import opened Cfgs
  import opened Dominance
  import opened Numbering
  import opened DomTree

  /** A path from `a` to `b` whose blocks after `a` all have larger numbers than `a`. */
  ghost predicate PathAbove(g: Cfg, rpos: seq<int>, p: seq<nat>, a: int, b: int) {
    && 0 <= a < |rpos| && 0 <= b < |rpos| && Joins(g, p, a, b)
    && forall i | 0 < i < |p| :: p[i] < |rpos| && rpos[a] < rpos[p[i]]
  }

  ghost predicate ReachesAbove(g: Cfg, rpos: seq<int>, a: int, b: int) {
    exists p :: PathAbove(g, rpos, p, a, b)
  }

  ghost predicate Sized(g: Cfg, rpos: seq<int>, t: seq<int>) {
    Tree(rpos, t) && |t| == |g.succ| == |g.pred|
  }

  /** Every block of `preds` that is in the tree has `x` as an ancestor. */
  ghost predicate AboveAll(rpos: seq<int>, t: seq<int>, preds: seq<nat>, x: int)
    requires Tree(rpos, t)
  {
    forall p | p in preds && In(t, p) :: Anc(rpos, t, x, p)
  }

  ghost predicate AbovePreds(g: Cfg, rpos: seq<int>, t: seq<int>, x: int, b: int)
    requires Sized(g, rpos, t) && 0 <= b < |t|
  {
    AboveAll(rpos, t, g.pred[b], x)
  }

  ghost predicate LinksAbove(g: Cfg, rpos: seq<int>, t: seq<int>) {
    forall b | In(t, b) && b != 0 :: ReachesAbove(g, rpos, t[b], b)
  }

  /** No true dominator has been dropped from a chain. */
  ghost predicate Safe(g: Cfg, rpos: seq<int>, t: seq<int>)
    requires Sized(g, rpos, t)
  {
    forall d: nat, b: nat | In(t, b) && Dominates(g, d, b) :: Anc(rpos, t, d, b)
  }

  /** Recomputing a link can only move it up. */
  ghost predicate Descending(g: Cfg, rpos: seq<int>, t: seq<int>)
    requires Sized(g, rpos, t)
  {
    forall x, c | In(t, c) && c != 0 && AbovePreds(g, rpos, t, x, c) :: Anc(rpos, t, x, c)
  }

  ghost predicate Inv(g: Cfg, rpos: seq<int>, t: seq<int>) {
    && Sized(g, rpos, t)
    && (forall b: nat | In(t, b) :: Reachable(g, b))
    && LinksAbove(g, rpos, t) && Safe(g, rpos, t) && Descending(g, rpos, t)
  }

  /** The link of `c` is an ancestor of every predecessor of `c` with a smaller number. */
  ghost predicate Settled(g: Cfg, rpos: seq<int>, t: seq<int>, c: int)
    requires Sized(g, rpos, t) && In(t, c) && c != 0
  {
    forall p | p in g.pred[c] && In(t, p) && rpos[p] < rpos[c] :: Anc(rpos, t, t[c], p)
  }

  /** Everything before position `r` of a sweep is in the tree. */
  ghost predicate FilledBefore(g: Cfg, rpos: seq<int>, t: seq<int>, r: int)
    requires Sized(g, rpos, t)
  {
    forall b: nat | b < |t| && Reachable(g, b) && (b == 0 || rpos[b] < r) :: In(t, b)
  }

  /** Everything before `r` is settled, and everything whose link is not before `r` still is. */
  ghost predicate SettledAround(g: Cfg, rpos: seq<int>, t: seq<int>, r: int)
    requires Sized(g, rpos, t)
  {
    forall c | In(t, c) && c != 0 && (rpos[c] < r || r <= rpos[t[c]]) :: Settled(g, rpos, t, c)
  }

  ghost predicate Full(g: Cfg, t: seq<int>) {
    forall b: nat | b < |t| && Reachable(g, b) :: In(t, b)
  }

  ghost predicate AtPosition(g: Cfg, rpos: seq<int>, t: seq<int>, r: int)
    requires Sized(g, rpos, t)
  {
    && FilledBefore(g, rpos, t, r) && SettledAround(g, rpos, t, r)
    && (Full(g, t) || forall c | In(t, c) && c != 0 :: rpos[c] < r)
  }

  /** `z` is the nearest common ancestor of the blocks of `preds` that are in the tree. */
  ghost predicate MeetOf(rpos: seq<int>, t: seq<int>, preds: seq<nat>, z: int)
    requires Tree(rpos, t)
  {
    && In(t, z) && AboveAll(rpos, t, preds, z)
    && forall x | AboveAll(rpos, t, preds, x) :: Anc(rpos, t, x, z)
  }

  ghost predicate Meet(g: Cfg, rpos: seq<int>, t: seq<int>, b: int, z: int)
    requires Sized(g, rpos, t) && 0 <= b < |t|
  {
    MeetOf(rpos, t, g.pred[b], z)
  }

  lemma {:induction false} AncReachesAbove(g: Cfg, rpos: seq<int>, t: seq<int>, a: int, b: int)
    requires Sized(g, rpos, t) && LinksAbove(g, rpos, t) && In(t, b) && Anc(rpos, t, a, b)
    ensures ReachesAbove(g, rpos, a, b)
    decreases rpos[b]
  {
    if a == b {
      assert PathAbove(g, rpos, [a], a, b);
    } else {
      AncReachesAbove(g, rpos, t, a, t[b]);
      AncRank(rpos, t, a, t[b]);
      AboveTrans(g, rpos, a, t[b], b);
    }
  }

  lemma AboveTrans(g: Cfg, rpos: seq<int>, a: int, b: int, c: int)
    requires ReachesAbove(g, rpos, a, b) && ReachesAbove(g, rpos, b, c) && rpos[a] <= rpos[b]
    ensures ReachesAbove(g, rpos, a, c)
  {
    var p :| PathAbove(g, rpos, p, a, b);
    var q :| PathAbove(g, rpos, q, b, c);
    PathConcat(g, p, q, a, b, c);
    var s := p + q[1..];
    forall i | 0 < i < |s| ensures s[i] < |rpos| && rpos[a] < rpos[s[i]] {
      if i < |p| { assert s[i] == p[i]; } else { assert s[i] == q[i - |p| + 1]; }
    }
    assert PathAbove(g, rpos, s, a, c);
  }

  /** At position `r`, the block numbered `r` has a predecessor in the tree with a smaller number. */
  lemma ForwardInTree(g: Cfg, rpos: seq<int>, t: seq<int>, b: int) returns (f: nat)
    requires g.Valid() && Numbered(g, rpos) && Sized(g, rpos, t) && 0 < b < |t| && Reachable(g, b)
    requires forall a: nat | a < |t| && Reachable(g, a) && rpos[a] < rpos[b] :: In(t, a)
    ensures f in g.pred[b] && In(t, f) && rpos[f] < rpos[b]
  {
    f :| ForwardPred(g, rpos, f, b);
    g.EdgeBothWays(f, b);
  }

  lemma NewLinkRank(g: Cfg, rpos: seq<int>, t: seq<int>, b: int, z: int, f: int)
    requires Sized(g, rpos, t) && 0 < b < |t| && Meet(g, rpos, t, b, z)
    requires f in g.pred[b] && In(t, f) && rpos[f] < rpos[b]
    ensures rpos[z] < rpos[b] && z != b && Tree(rpos, t[b := z])
  {
    AncRank(rpos, t, z, f);
  }

  /** Chains that do not pass through `b` are as before. */
  lemma {:induction false} Untouched(rpos: seq<int>, t: seq<int>, u: seq<int>, b: int, x: int, y: int)
    requires Tree(rpos, t) && Tree(rpos, u) && |u| == |t| && (forall i | 0 <= i < |t| && i != b :: u[i] == t[i])
    requires In(t, y) && !Anc(rpos, t, b, y)
    ensures In(u, y) && (Anc(rpos, u, x, y) <==> Anc(rpos, t, x, y)) && !Anc(rpos, u, b, y)
    decreases rpos[y]
  {
    if y != 0 {
      Untouched(rpos, t, u, b, x, t[y]);
    }
  }

  /** A chain through `b` still passes through `b`, and is as before down from it. */
  lemma {:induction false} Touched(rpos: seq<int>, t: seq<int>, u: seq<int>, b: int, x: int, y: int)
    requires Tree(rpos, t) && Tree(rpos, u) && |u| == |t| && (forall i | 0 <= i < |t| && i != b :: u[i] == t[i])
    requires In(t, y) && In(t, b) && Anc(rpos, t, b, y) && In(u, b)
    ensures In(u, y) && Anc(rpos, u, b, y)
    ensures Anc(rpos, t, x, y) && In(t, x) && rpos[b] <= rpos[x] ==> Anc(rpos, u, x, y)
    decreases rpos[y]
  {
    if y != b {
      Touched(rpos, t, u, b, x, t[y]);
    } else if Anc(rpos, t, x, y) {
      AncRank(rpos, t, x, y);
    }
  }

  /** `u` is `t` with the link of `b` set to `z`, above the old link if there was one. */
  ghost predicate Relinked(rpos: seq<int>, t: seq<int>, u: seq<int>, b: int, z: int) {
    && Tree(rpos, t) && Tree(rpos, u) && 0 < b < |t| && u == t[b := z]
    && In(t, z) && rpos[z] < rpos[b] && (In(t, b) ==> Anc(rpos, t, z, b))
  }

  /** The chain of the new link does not pass through `b`. */
  lemma LinkUntouched(rpos: seq<int>, t: seq<int>, u: seq<int>, b: int, z: int, x: int)
    requires Relinked(rpos, t, u, b, z)
    ensures In(u, z) && (Anc(rpos, u, x, z) <==> Anc(rpos, t, x, z))
    ensures Anc(rpos, u, x, b) <==> x == b || Anc(rpos, t, x, z)
  {
    if Anc(rpos, t, b, z) { AncRank(rpos, t, b, z); }
    Untouched(rpos, t, u, b, x, z);
  }

  /** Relinking adds no ancestors. */
  lemma {:induction false} RelinkShrinks(rpos: seq<int>, t: seq<int>, u: seq<int>, b: int, z: int, x: int, y: int)
    requires Relinked(rpos, t, u, b, z) && In(t, y) && In(u, y) && Anc(rpos, u, x, y)
    ensures Anc(rpos, t, x, y)
    decreases rpos[y]
  {
    if x != y {
      if y == b {
        LinkUntouched(rpos, t, u, b, z, x);
        AncTrans(rpos, t, x, z, b);
      } else {
        RelinkShrinks(rpos, t, u, b, z, x, t[y]);
      }
    }
  }

  /** An ancestor of `y` that relinking `b` removed lies strictly above `b`, and no longer above `b`. */
  lemma Removed(rpos: seq<int>, t: seq<int>, u: seq<int>, b: int, z: int, x: int, y: int)
    requires Relinked(rpos, t, u, b, z) && In(t, y) && Anc(rpos, t, x, y)
    requires In(u, y) ==> !Anc(rpos, u, x, y)
    ensures In(t, b) && In(u, b) && Anc(rpos, t, b, y) && In(t, x) && rpos[x] < rpos[b] && Anc(rpos, t, x, b)
    ensures !Anc(rpos, u, x, b)
  {
    AncRank(rpos, t, x, y);
    if !Anc(rpos, t, b, y) {
      Untouched(rpos, t, u, b, x, y);
    } else {
      AncRank(rpos, t, b, y);
      Touched(rpos, t, u, b, x, y);
      AncLinear(rpos, t, x, b, y);
      if Anc(rpos, u, x, b) { AncTrans(rpos, u, x, b, y); }
    }
  }

  lemma SafeAtB(g: Cfg, rpos: seq<int>, t: seq<int>, u: seq<int>, b: int, z: int, d: nat)
    requires g.Valid() && Sized(g, rpos, t) && Relinked(rpos, t, u, b, z) && Safe(g, rpos, t) && Meet(g, rpos, t, b, z)
    requires Dominates(g, d, b)
    ensures Anc(rpos, u, d, b)
  {
    LinkUntouched(rpos, t, u, b, z, d);
    if d != b {
      forall p | p in g.pred[b] && In(t, p) ensures Anc(rpos, t, d, p) {
        g.PredEdge(p, b);
        DominatesPred(g, d, p, b);
      }
      assert AbovePreds(g, rpos, t, d, b);
    }
  }

  /** If `y` no longer dominated `c` in the tree, a path would reach `b` around `y` and go on to `c` above `b`. */
  lemma SafeElsewhere(g: Cfg, rpos: seq<int>, t: seq<int>, u: seq<int>, b: int, z: int, y: nat, c: nat)
    requires g.Valid() && Sized(g, rpos, t) && Relinked(rpos, t, u, b, z) && Safe(g, rpos, t) && Meet(g, rpos, t, b, z)
    requires LinksAbove(g, rpos, t) && In(t, c) && In(u, c) && Dominates(g, y, c)
    ensures Anc(rpos, u, y, c)
  {
    if !Anc(rpos, u, y, c) {
      Removed(rpos, t, u, b, z, y, c);
      if Dominates(g, y, b) { SafeAtB(g, rpos, t, u, b, z, y); }
      var q :| Joins(g, q, 0, b) && y !in q;
      AncReachesAbove(g, rpos, t, b, c);
      var w :| PathAbove(g, rpos, w, b, c);
      PathConcat(g, q, w, 0, b, c);
    }
  }

  /** `f` is a predecessor of `c` in the tree with a smaller number. */
  ghost predicate Forward(g: Cfg, rpos: seq<int>, t: seq<int>, f: int, c: int)
    requires Sized(g, rpos, t) && 0 <= c < |t|
  {
    f in g.pred[c] && In(t, f) && rpos[f] < rpos[c]
  }

  lemma DescendingAtB(g: Cfg, rpos: seq<int>, t: seq<int>, u: seq<int>, b: int, z: int, x: int)
    requires Sized(g, rpos, t) && Sized(g, rpos, u) && Relinked(rpos, t, u, b, z) && Meet(g, rpos, t, b, z)
    requires AbovePreds(g, rpos, u, x, b)
    ensures Anc(rpos, u, x, b)
  {
    forall p | p in g.pred[b] && In(t, p) ensures Anc(rpos, t, x, p) {
      RelinkShrinks(rpos, t, u, b, z, x, p);
    }
    assert AbovePreds(g, rpos, t, x, b);
    LinkUntouched(rpos, t, u, b, z, x);
  }

  lemma DescendingElsewhere(g: Cfg, rpos: seq<int>, t: seq<int>, u: seq<int>, b: int, z: int, f: int, x: int, c: int)
    requires Sized(g, rpos, t) && Sized(g, rpos, u) && Relinked(rpos, t, u, b, z) && Descending(g, rpos, t)
    requires In(t, c) && c != 0 && c != b && Forward(g, rpos, t, f, c)
    requires rpos[b] <= rpos[t[c]] ==> Anc(rpos, t, t[c], f)
    requires AbovePreds(g, rpos, u, x, c)
    ensures Anc(rpos, u, x, c)
  {
    forall p | p in g.pred[c] && In(t, p) ensures Anc(rpos, t, x, p) {
      RelinkShrinks(rpos, t, u, b, z, x, p);
    }
    assert AbovePreds(g, rpos, t, x, c);
    if !Anc(rpos, u, x, c) {
      Removed(rpos, t, u, b, z, x, c);
      AncRank(rpos, t, b, t[c]);
      AncTrans(rpos, t, b, t[c], f);
      Touched(rpos, t, u, b, b, f);
      assert Anc(rpos, u, x, f);
      AncLinear(rpos, u, x, b, f);
    }
  }

  lemma SettledAtB(g: Cfg, rpos: seq<int>, t: seq<int>, u: seq<int>, b: int, z: int)
    requires Sized(g, rpos, t) && Sized(g, rpos, u) && Relinked(rpos, t, u, b, z) && Meet(g, rpos, t, b, z)
    ensures Settled(g, rpos, u, b)
  {
    forall p | p in g.pred[b] && In(u, p) && rpos[p] < rpos[b] ensures Anc(rpos, u, z, p) {
      if Anc(rpos, t, b, p) { AncRank(rpos, t, b, p); }
      Untouched(rpos, t, u, b, z, p);
    }
  }

  lemma SettledElsewhere(g: Cfg, rpos: seq<int>, t: seq<int>, u: seq<int>, b: int, z: int, c: int)
    requires Sized(g, rpos, t) && Sized(g, rpos, u) && Relinked(rpos, t, u, b, z)
    requires In(t, c) && c != 0 && c != b && Settled(g, rpos, t, c)
    requires rpos[c] < rpos[b] || (In(t, b) && rpos[b] < rpos[t[c]])
    ensures Settled(g, rpos, u, c)
  {
    forall p | p in g.pred[c] && In(u, p) && rpos[p] < rpos[c] ensures Anc(rpos, u, u[c], p) {
      assert Anc(rpos, t, t[c], p);
      if Anc(rpos, t, b, p) {
        AncRank(rpos, t, b, p);
        Touched(rpos, t, u, b, t[c], p);
      } else {
        Untouched(rpos, t, u, b, t[c], p);
      }
    }
  }

  lemma NewLinkAbove(g: Cfg, rpos: seq<int>, t: seq<int>, b: int, z: int, f: int)
    requires g.Valid() && Sized(g, rpos, t) && LinksAbove(g, rpos, t) && 0 < b < |t|
    requires Forward(g, rpos, t, f, b) && In(t, z) && Anc(rpos, t, z, f)
    ensures ReachesAbove(g, rpos, z, b)
  {
    AncReachesAbove(g, rpos, t, z, f);
    AncRank(rpos, t, z, f);
    g.PredEdge(f, b);
    assert PathAbove(g, rpos, [f, b], f, b);
    AboveTrans(g, rpos, z, f, b);
  }

  /** `h` is a forward predecessor of `c`, below the link of `c` unless that link lies before `b`. */
  ghost predicate Holds(g: Cfg, rpos: seq<int>, t: seq<int>, b: int, h: int, c: int)
    requires Sized(g, rpos, t) && 0 <= b < |t| && In(t, c) && c != 0
  {
    Forward(g, rpos, t, h, c) && (rpos[b] <= rpos[t[c]] ==> Anc(rpos, t, t[c], h))
  }

  lemma StepDescends(g: Cfg, rpos: seq<int>, t: seq<int>, u: seq<int>, b: int, z: int)
    requires Sized(g, rpos, t) && Sized(g, rpos, u) && Relinked(rpos, t, u, b, z) && Meet(g, rpos, t, b, z)
    requires Descending(g, rpos, t)
    requires forall c | In(t, c) && c != 0 && c != b :: exists h :: Holds(g, rpos, t, b, h, c)
    ensures Descending(g, rpos, u)
  {
    forall x, c | In(u, c) && c != 0 && AbovePreds(g, rpos, u, x, c) ensures Anc(rpos, u, x, c) {
      if c == b {
        DescendingAtB(g, rpos, t, u, b, z, x);
      } else {
        assert In(t, c);
        var h :| Holds(g, rpos, t, b, h, c);
        DescendingElsewhere(g, rpos, t, u, b, z, h, x, c);
      }
    }
  }

  lemma StepKeepsSafe(g: Cfg, rpos: seq<int>, t: seq<int>, u: seq<int>, b: int, z: int, f: int)
    requires g.Valid() && Sized(g, rpos, t) && Sized(g, rpos, u) && Relinked(rpos, t, u, b, z) && Meet(g, rpos, t, b, z)
    requires LinksAbove(g, rpos, t) && Safe(g, rpos, t) && Forward(g, rpos, t, f, b)
    ensures LinksAbove(g, rpos, u) && Safe(g, rpos, u)
  {
    forall c | In(u, c) && c != 0 ensures ReachesAbove(g, rpos, u[c], c) {
      if c == b { NewLinkAbove(g, rpos, t, b, z, f); } else { assert In(t, c); }
    }
    forall d: nat, c: nat | In(u, c) && Dominates(g, d, c) ensures Anc(rpos, u, d, c) {
      if c == b { SafeAtB(g, rpos, t, u, b, z, d); } else { SafeElsewhere(g, rpos, t, u, b, z, d, c); }
    }
  }

  lemma SettledForward(g: Cfg, rpos: seq<int>, t: seq<int>, b: int, c: int) returns (h: nat)
    requires g.Valid() && Numbered(g, rpos) && Sized(g, rpos, t) && 0 <= b < |t|
    requires FilledBefore(g, rpos, t, rpos[b]) && SettledAround(g, rpos, t, rpos[b])
    requires In(t, c) && c != 0 && Reachable(g, c)
    requires Full(g, t) || rpos[c] < rpos[b]
    ensures Holds(g, rpos, t, b, h, c)
  {
    h := ForwardInTree(g, rpos, t, c);
    if rpos[b] <= rpos[t[c]] { assert Settled(g, rpos, t, c); }
  }

  lemma StepSettles(g: Cfg, rpos: seq<int>, t: seq<int>, u: seq<int>, b: int, z: int)
    requires Sized(g, rpos, t) && Sized(g, rpos, u) && Relinked(rpos, t, u, b, z) && Meet(g, rpos, t, b, z)
    requires SettledAround(g, rpos, t, rpos[b])
    requires forall c | In(t, c) && c != b :: rpos[c] != rpos[b]
    requires In(t, b) || forall c | In(t, c) && c != 0 :: rpos[c] < rpos[b]
    ensures SettledAround(g, rpos, u, rpos[b] + 1)
  {
    forall c | In(u, c) && c != 0 && (rpos[c] < rpos[b] + 1 || rpos[b] + 1 <= rpos[u[c]])
      ensures Settled(g, rpos, u, c)
    {
      if c == b {
        SettledAtB(g, rpos, t, u, b, z);
      } else {
        assert Settled(g, rpos, t, c);
        SettledElsewhere(g, rpos, t, u, b, z, c);
      }
    }
  }

  lemma StepFills(g: Cfg, rpos: seq<int>, t: seq<int>, u: seq<int>, b: int, z: int)
    requires Numbered(g, rpos) && Sized(g, rpos, t) && Sized(g, rpos, u) && Relinked(rpos, t, u, b, z)
      && Reachable(g, b)
    requires AtPosition(g, rpos, t, rpos[b])
    ensures FilledBefore(g, rpos, u, rpos[b] + 1)
    ensures Full(g, u) || forall c | In(u, c) && c != 0 :: rpos[c] < rpos[b] + 1
  {
    hide SettledAround, Reachable, ForwardPred;
    assert (forall c | In(t, c) :: In(u, c)) && forall c | In(u, c) && c != b :: In(t, c);
    forall c: nat | c < |u| && Reachable(g, c) && (c == 0 || rpos[c] < rpos[b] + 1) ensures In(u, c) {
      if c != b { assert rpos[c] != rpos[b]; }
    }
  }

  lemma StepReady(g: Cfg, rpos: seq<int>, t: seq<int>, b: int, z: int) returns (f: int)
    requires g.Valid() && Numbered(g, rpos) && Sized(g, rpos, t) && Descending(g, rpos, t)
    requires 0 < b < |t| && Reachable(g, b) && FilledBefore(g, rpos, t, rpos[b]) && Meet(g, rpos, t, b, z)
    ensures Relinked(rpos, t, t[b := z], b, z) && Forward(g, rpos, t, f, b)
    ensures In(t, b) && z != t[b] ==> rpos[z] < rpos[t[b]]
  {
    f := ForwardInTree(g, rpos, t, b);
    NewLinkRank(g, rpos, t, b, z, f);
    if In(t, b) {
      assert Anc(rpos, t, z, b);
      AncRank(rpos, t, z, t[b]);
    }
  }

  lemma AllHold(g: Cfg, rpos: seq<int>, t: seq<int>, b: int)
    requires g.Valid() && Numbered(g, rpos) && Sized(g, rpos, t) && (forall c: nat | In(t, c) :: Reachable(g, c))
    requires 0 < b < |t| && AtPosition(g, rpos, t, rpos[b])
    ensures forall c | In(t, c) && c != 0 && c != b :: exists h :: Holds(g, rpos, t, b, h, c)
  {
    forall c | In(t, c) && c != 0 && c != b ensures exists h :: Holds(g, rpos, t, b, h, c) {
      var h := SettledForward(g, rpos, t, b, c);
    }
  }

  /** The invariants after a new link. */
  lemma LinkKeepsInv(g: Cfg, rpos: seq<int>, t: seq<int>, u: seq<int>, b: int, z: int, f: int)
    requires g.Valid() && Numbered(g, rpos) && Sized(g, rpos, t) && Sized(g, rpos, u) && Inv(g, rpos, t)
    requires Relinked(rpos, t, u, b, z) && Reachable(g, b) && AtPosition(g, rpos, t, rpos[b]) && Meet(g, rpos, t, b, z)
    requires Forward(g, rpos, t, f, b)
    ensures Inv(g, rpos, u)
  {
    hide Anc, Settled, Safe, LinksAbove, Descending, Reachable, AtPosition, Meet, Forward, Numbered;
    StepKeepsSafe(g, rpos, t, u, b, z, f);
    AllHold(g, rpos, t, b);
    StepDescends(g, rpos, t, u, b, z);
  }

  /** The place of the sweep after a new link. */
  lemma LinkMovesOn(g: Cfg, rpos: seq<int>, t: seq<int>, u: seq<int>, b: int, z: int)
    requires g.Valid() && Numbered(g, rpos) && Sized(g, rpos, t) && Sized(g, rpos, u)
    requires Relinked(rpos, t, u, b, z) && Reachable(g, b) && AtPosition(g, rpos, t, rpos[b]) && Meet(g, rpos, t, b, z)
    requires forall c: nat | In(t, c) :: Reachable(g, c)
    ensures AtPosition(g, rpos, u, rpos[b] + 1)
  {
    hide Anc, Settled, Reachable, SettledAround, FilledBefore, Meet;
    StepSettles(g, rpos, t, u, b, z);
    StepFills(g, rpos, t, u, b, z);
  }

  /** Giving block `b` its new link keeps every invariant, moves the sweep past `b`, and moves the link up. */
  lemma LinkStep(g: Cfg, rpos: seq<int>, t: seq<int>, b: int, z: int)
    requires g.Valid() && Numbered(g, rpos) && Inv(g, rpos, t)
    requires 0 < b < |t| && Reachable(g, b) && AtPosition(g, rpos, t, rpos[b]) && Meet(g, rpos, t, b, z)
    ensures Inv(g, rpos, t[b := z]) && AtPosition(g, rpos, t[b := z], rpos[b] + 1)
    ensures In(t, b) && z != t[b] ==> rpos[z] < rpos[t[b]]
  {
    hide Numbered, Anc, Safe, LinksAbove, Reachable, Meet, SettledAround, Forward, Descending;
    var f := StepReady(g, rpos, t, b, z);
    LinkKeepsInv(g, rpos, t, t[b := z], b, z, f);
    LinkMovesOn(g, rpos, t, t[b := z], b, z);
  }

  lemma MeetWithFirst(rpos: seq<int>, t: seq<int>, preds: seq<nat>, p: nat)
    requires Tree(rpos, t) && In(t, p) && forall q | q in preds :: !In(t, q)
    ensures MeetOf(rpos, t, preds + [p], p)
  {
    assert p in preds + [p];
  }

  lemma MeetWithNext(rpos: seq<int>, t: seq<int>, preds: seq<nat>, p: nat, z: int, w: int)
    requires Tree(rpos, t) && In(t, p) && MeetOf(rpos, t, preds, z) && Nearest(rpos, t, w, p, z)
    ensures MeetOf(rpos, t, preds + [p], w)
  {
    forall q | q in preds + [p] && In(t, q) ensures Anc(rpos, t, w, q) {
      if q in preds { AncTrans(rpos, t, w, z, q); }
    }
    forall x | AboveAll(rpos, t, preds + [p], x) ensures Anc(rpos, t, x, w) {
      assert p in preds + [p];
      assert AboveAll(rpos, t, preds, x);
    }
  }

  lemma MeetSkips(rpos: seq<int>, t: seq<int>, preds: seq<nat>, p: nat, z: int)
    requires Tree(rpos, t) && !In(t, p) && MeetOf(rpos, t, preds, z)
    ensures MeetOf(rpos, t, preds + [p], z)
  {
    forall x | AboveAll(rpos, t, preds + [p], x) ensures Anc(rpos, t, x, z) {
      assert AboveAll(rpos, t, preds, x);
    }
  }

  /** The link for `b` from the links its predecessors have now; -1 if none has one. */
  method NewIdom(g: Cfg, rpos: array<int>, idoms: array<int>, b: nat) returns (newIdom: int)
    requires g.Valid() && Sized(g, rpos[..], idoms[..]) && Distinct(rpos[..], idoms[..]) && b < idoms.Length
    ensures newIdom == -1 <==> forall p | p in g.pred[b] :: !In(idoms[..], p)
    ensures newIdom != -1 ==> In(idoms[..], newIdom) && Meet(g, rpos[..], idoms[..], b, newIdom)
  {
    hide Anc, Nearest, MeetOf;
    ghost var r, t := rpos[..], idoms[..];
    newIdom := -1;
    for e := 0 to |g.pred[b]|
      invariant newIdom == -1 <==> forall p | p in g.pred[b][..e] :: !In(t, p)
      invariant newIdom != -1 ==> In(t, newIdom) && MeetOf(r, t, g.pred[b][..e], newIdom)
    {
      var p := g.pred[b][e];
      assert p in g.pred[b];
      assert g.pred[b][..e + 1] == g.pred[b][..e] + [p];
      if idoms[p] != -1 {
        if newIdom == -1 {
          MeetWithFirst(r, t, g.pred[b][..e], p);
          newIdom := p;
        } else {
          ghost var z := newIdom;
          newIdom := Intersect(rpos, idoms, p, newIdom);
          MeetWithNext(r, t, g.pred[b][..e], p, z, newIdom);
        }
      } else if newIdom != -1 {
        MeetSkips(r, t, g.pred[b][..e], p, newIdom);
      }
    }
    assert g.pred[b][..|g.pred[b]|] == g.pred[b];
  }

  /** The largest value a link can have is left first: no link, then links to ever smaller numbers. */
  ghost function Weight(rpos: seq<int>, t: seq<int>, b: int): nat
    requires Tree(rpos, t) && 0 <= b < |t|
  {
    if t[b] == -1 then 1 + Top(rpos, |rpos|) else if b == 0 then 0 else rpos[t[b]]
  }

  ghost function Top(rpos: seq<int>, k: nat): (m: nat)
    requires k <= |rpos|
    ensures forall i | 0 <= i < k :: rpos[i] <= m
  {
    if k == 0 then 0 else
      var m := Top(rpos, k - 1);
      if rpos[k - 1] > m then rpos[k - 1] else m
  }

  ghost function Rank(rpos: seq<int>, t: seq<int>, k: nat): nat
    requires Tree(rpos, t) && k <= |t|
  {
    if k == 0 then 0 else Weight(rpos, t, k - 1) + Rank(rpos, t, k - 1)
  }

  lemma {:induction false} RankFalls(rpos: seq<int>, t: seq<int>, u: seq<int>, b: int, k: nat)
    requires Tree(rpos, t) && Tree(rpos, u) && |t| == |u| && 0 <= b < |t| && k <= |t|
    requires forall i | 0 <= i < |t| && i != b :: u[i] == t[i]
    requires Weight(rpos, u, b) < Weight(rpos, t, b)
    ensures if b < k then Rank(rpos, u, k) < Rank(rpos, t, k) else Rank(rpos, u, k) == Rank(rpos, t, k)
  {
    if k > 0 { RankFalls(rpos, t, u, b, k - 1); }
  }

  /** Every reachable block numbered below `r` already has the link its predecessors call for. */
  ghost predicate MeetsBefore(g: Cfg, rpos: seq<int>, t: seq<int>, r: int)
    requires Sized(g, rpos, t)
  {
    forall b: nat | 0 < b < |t| && Reachable(g, b) && rpos[b] < r :: Meet(g, rpos, t, b, t[b])
  }

  lemma SkipPosition(g: Cfg, rpos: seq<int>, t: seq<int>, r: int)
    requires Inv(g, rpos, t) && AtPosition(g, rpos, t, r)
    requires forall b: nat | 0 < b < |t| && Reachable(g, b) :: rpos[b] != r
    ensures AtPosition(g, rpos, t, r + 1) && (MeetsBefore(g, rpos, t, r) ==> MeetsBefore(g, rpos, t, r + 1))
  {
    hide Settled, Reachable;
  }

  /** The end of one sweep is the start of the next. */
  lemma Rewind(g: Cfg, rpos: seq<int>, t: seq<int>)
    requires Numbered(g, rpos) && Inv(g, rpos, t) && AtPosition(g, rpos, t, |t|)
    ensures AtPosition(g, rpos, t, 0)
  {
    hide Settled, Reachable;
  }

  lemma NothingBefore(g: Cfg, rpos: seq<int>, t: seq<int>)
    requires Numbered(g, rpos) && Sized(g, rpos, t)
    ensures MeetsBefore(g, rpos, t, 0)
  {
    hide Reachable;
  }

  lemma ReachableDistinct(g: Cfg, rpos: seq<int>, t: seq<int>)
    requires Numbered(g, rpos) && Inv(g, rpos, t)
    ensures Distinct(rpos, t)
  {
  }

  /** `t` moves on to `u` by giving `b` the link `z`. */
  lemma Advance(g: Cfg, rpos: seq<int>, t: seq<int>, b: nat, z: int)
    requires g.Valid() && Numbered(g, rpos) && Inv(g, rpos, t)
    requires 0 < b < |t| && Reachable(g, b) && AtPosition(g, rpos, t, rpos[b])
    requires In(t, z) && Meet(g, rpos, t, b, z)
    ensures Sized(g, rpos, t[b := z]) && Inv(g, rpos, t[b := z]) && AtPosition(g, rpos, t[b := z], rpos[b] + 1)
    ensures z != t[b] ==> Rank(rpos, t[b := z], |t|) < Rank(rpos, t, |t|)
    ensures z == t[b] && MeetsBefore(g, rpos, t, rpos[b]) ==> MeetsBefore(g, rpos, t, rpos[b] + 1)
  {
    hide Anc, Settled, Safe, LinksAbove, Descending, Reachable, SettledAround, FilledBefore, MeetOf;
    LinkStep(g, rpos, t, b, z);
    if z != t[b] { RankFalls(rpos, t, t[b := z], b, |t|); }
  }

  /** Unreachable blocks have no predecessor in the tree; reachable ones do when their turn comes. */
  lemma PredsTellReachable(g: Cfg, rpos: seq<int>, t: seq<int>, b: nat)
    requires g.Valid() && Numbered(g, rpos) && Inv(g, rpos, t) && 0 < b < |t|
    requires Reachable(g, b) ==> AtPosition(g, rpos, t, rpos[b])
    ensures Reachable(g, b) <==> exists p :: p in g.pred[b] && In(t, p)
    ensures !Reachable(g, b) ==> t[b] == -1
  {
    hide Anc, Safe, LinksAbove, Descending, Settled, SettledAround;
    if Reachable(g, b) {
      var f := ForwardInTree(g, rpos, t, b);
    }
    if p :| p in g.pred[b] && In(t, p) {
      g.PredEdge(p, b);
      ReachableStep(g, p, b);
    }
  }

  /** The links after position `i` of a sweep, `z` being what the predecessors of the block there call for. */
  ghost function After(t: seq<int>, order: seq<nat>, i: nat, z: int): seq<int>
    requires i < |order| && order[i] < |t|
  {
    if order[i] == 0 || z == -1 then t else t[order[i] := z]
  }

  lemma SweepStep(g: Cfg, rpos: seq<int>, order: seq<nat>, t: seq<int>, i: nat, z: int)
    requires g.Valid() && Numbered(g, rpos) && Orders(g, rpos, order) && Sized(g, rpos, t) && Inv(g, rpos, t) && i < |t|
    requires AtPosition(g, rpos, t, i)
    requires order[i] != 0 ==> (z == -1 <==> forall p | p in g.pred[order[i]] :: !In(t, p))
    requires order[i] != 0 && z != -1 ==> In(t, z) && Meet(g, rpos, t, order[i], z)
    ensures var u := After(t, order, i, z);
      && Sized(g, rpos, u) && Inv(g, rpos, u) && AtPosition(g, rpos, u, i + 1)
      && (order[i] != 0 ==> u[order[i]] == z)
      && (u != t ==> Rank(rpos, u, |t|) < Rank(rpos, t, |t|))
      && (u == t && MeetsBefore(g, rpos, t, i) ==> MeetsBefore(g, rpos, u, i + 1))
  {
    hide Inv, AtPosition, Numbered, Rank, MeetsBefore, Meet, Reachable, Tree;
    var b := order[i];
    if b != 0 { PredsTellReachable(g, rpos, t, b); }
    if b == 0 || !Reachable(g, b) {
      SkipPosition(g, rpos, t, i);
    } else {
      Advance(g, rpos, t, b, z);
    }
  }

  method Sweep(g: Cfg, rpos: array<int>, order: array<nat>, idoms: array<int>) returns (changed: bool)
    requires g.Valid() && Numbered(g, rpos[..]) && Orders(g, rpos[..], order[..])
    requires Sized(g, rpos[..], idoms[..]) && Inv(g, rpos[..], idoms[..]) && AtPosition(g, rpos[..], idoms[..], 0)
    requires rpos != idoms
    modifies idoms
    ensures Sized(g, rpos[..], idoms[..]) && Inv(g, rpos[..], idoms[..])
    ensures AtPosition(g, rpos[..], idoms[..], idoms.Length)
    ensures rpos[..] == old(rpos[..])
    ensures changed ==> Rank(rpos[..], idoms[..], idoms.Length) < Rank(rpos[..], old(idoms[..]), idoms.Length)
    ensures !changed ==> idoms[..] == old(idoms[..]) && MeetsBefore(g, rpos[..], idoms[..], idoms.Length)
  {
    hide Inv, AtPosition, Numbered, Rank, MeetsBefore, Meet, Reachable, Distinct;
    ghost var r, ord := rpos[..], order[..];
    ghost var t := idoms[..];
    NothingBefore(g, r, t);
    changed := false;
    for i := 0 to idoms.Length
      invariant r == rpos[..] && t == idoms[..] && Sized(g, r, t) && Inv(g, r, t) && AtPosition(g, r, t, i)
      invariant if changed then Rank(r, t, |t|) < Rank(r, old(idoms[..]), |t|)
          else t == old(idoms[..]) && MeetsBefore(g, r, t, i)
    {
      var b := order[i];
      var newIdom := 0;
      if b != 0 {
        ReachableDistinct(g, r, t);
        newIdom := NewIdom(g, rpos, idoms, b);
      }
      SweepStep(g, r, ord, t, i, newIdom);
      if b != 0 && idoms[b] != newIdom {
        idoms[b] := newIdom;
        changed := true;
      }
      t := After(t, ord, i, newIdom);
    }
  }

  lemma StartsReady(g: Cfg, rpos: seq<int>, t: seq<int>)
    requires g.Valid() && Numbered(g, rpos) && |t| == |g.succ| && t[0] == 0 && forall b | 0 < b < |t| :: t[b] == -1
    ensures Sized(g, rpos, t) && Inv(g, rpos, t) && AtPosition(g, rpos, t, 0)
  {
    ZeroReachable(g);
    forall d: nat | Dominates(g, d, 0) ensures d == 0 {
      assert Joins(g, [0], 0, 0);
      assert d in [0];
    }
  }

  /** The last edge of a path from block 0. */
  lemma PathStep(g: Cfg, b: nat, p: seq<nat>) returns (m: nat)
    requires g.Valid() && Joins(g, p, 0, b) && |p| > 1
    ensures m in g.pred[b] && Joins(g, p[..|p| - 1], 0, m) && Reachable(g, m) && Reachable(g, b)
  {
    hide Cfg.Valid;
    LastEdge(g, p);
    m := p[|p| - 2];
    PathPrefix(g, p, |p| - 1);
  }

  /** When no link changes any more, all reachable blocks are in the tree. */
  lemma StableIsFull(g: Cfg, rpos: seq<int>, t: seq<int>, b: nat)
    requires g.Valid() && Numbered(g, rpos) && Inv(g, rpos, t) && AtPosition(g, rpos, t, |t|)
    ensures In(t, b) <==> b < |t| && Reachable(g, b)
  {
    hide Reachable, Safe, LinksAbove, Descending, SettledAround, Full, ForwardPred, Cfg.Valid;
  }

  /** And every link lies above all predecessors. */
  lemma StableLink(g: Cfg, rpos: seq<int>, t: seq<int>, b: nat, m: nat)
    requires g.Valid() && Numbered(g, rpos) && Inv(g, rpos, t)
    requires AtPosition(g, rpos, t, |t|) && MeetsBefore(g, rpos, t, |t|)
    requires 0 < b < |t| && Reachable(g, b) && m in g.pred[b] && Reachable(g, m)
    ensures In(t, m) && Anc(rpos, t, t[b], m)
  {
    assert m < |t|;
    StableIsFull(g, rpos, t, m);
    hide Reachable, AtPosition, Safe, LinksAbove, Descending, ForwardPred, Cfg.Valid, Anc;
    assert Meet(g, rpos, t, b, t[b]);
  }

  /** When no link changes any more, every tree ancestor is a dominator. */
  lemma {:induction false} StableIsExact(g: Cfg, rpos: seq<int>, t: seq<int>, d: nat, b: nat, p: seq<nat>)
    requires g.Valid() && Numbered(g, rpos) && Sized(g, rpos, t) && Inv(g, rpos, t)
    requires AtPosition(g, rpos, t, |t|) && MeetsBefore(g, rpos, t, |t|)
    requires In(t, b) && Anc(rpos, t, d, b) && Joins(g, p, 0, b)
    ensures d in p
    decreases |p|
  {
    hide Inv, Numbered, AtPosition, MeetsBefore, Reachable, Cfg.Valid;
    if d != b {
      assert b != 0 && Anc(rpos, t, d, t[b]);
      assert |p| > 1;
      var m := PathStep(g, b, p);
      StableLink(g, rpos, t, b, m);
      AncTrans(rpos, t, d, t[b], m);
      StableIsExact(g, rpos, t, d, m, p[..|p| - 1]);
    }
  }

  /** The tree of links is the dominator tree: its members are the reachable blocks and its chains the dominators. */
  ghost predicate DominatorTree(g: Cfg, rpos: seq<int>, t: seq<int>) {
    && Sized(g, rpos, t)
    && (forall b: nat :: In(t, b) <==> b < |t| && Reachable(g, b))
    && (forall d: nat, b: nat | In(t, b) :: Anc(rpos, t, d, b) <==> Dominates(g, d, b))
  }

  lemma StableAncestor(g: Cfg, rpos: seq<int>, t: seq<int>, d: nat, b: nat)
    requires g.Valid() && Numbered(g, rpos) && Sized(g, rpos, t) && Inv(g, rpos, t)
    requires AtPosition(g, rpos, t, |t|) && MeetsBefore(g, rpos, t, |t|) && In(t, b)
    ensures Anc(rpos, t, d, b) <==> Dominates(g, d, b)
  {
    hide Anc, LinksAbove, Descending, AtPosition, MeetsBefore, Numbered, Reachable, Joins, Cfg.Valid;
    if Anc(rpos, t, d, b) {
      forall p | Joins(g, p, 0, b) ensures d in p { StableIsExact(g, rpos, t, d, b, p); }
    }
  }

  lemma StableIsDominatorTree(g: Cfg, rpos: seq<int>, t: seq<int>)
    requires g.Valid() && Numbered(g, rpos) && Sized(g, rpos, t) && Inv(g, rpos, t)
    requires AtPosition(g, rpos, t, |t|) && MeetsBefore(g, rpos, t, |t|)
    ensures DominatorTree(g, rpos, t)
  {
    hide Inv, Anc, AtPosition, MeetsBefore, Numbered, Reachable, Dominates, Cfg.Valid;
    forall b: nat ensures In(t, b) <==> b < |t| && Reachable(g, b) { StableIsFull(g, rpos, t, b); }
    forall d: nat, b: nat | In(t, b) ensures Anc(rpos, t, d, b) <==> Dominates(g, d, b) {
      StableAncestor(g, rpos, t, d, b);
    }
  }

  /** `i` strictly dominates `b`, and every strict dominator of `b` dominates `i`. */
  ghost predicate ClosestStrictDominator(g: Cfg, i: nat, b: nat) {
    StrictlyDominates(g, i, b) && forall d: nat | StrictlyDominates(g, d, b) :: Dominates(g, d, i)
  }

  lemma LinkIsClosest(g: Cfg, rpos: seq<int>, t: seq<int>, b: nat)
    requires DominatorTree(g, rpos, t) && In(t, b) && b != 0
    ensures ClosestStrictDominator(g, t[b], b)
  {
    assert Anc(rpos, t, t[b], b);
    forall d: nat | StrictlyDominates(g, d, b) ensures Dominates(g, d, t[b]) {
      assert Anc(rpos, t, d, b);
    }
  }

  /** A reachable block has at most one closest strict dominator. */
  lemma ClosestIsUnique(g: Cfg, rpos: seq<int>, t: seq<int>, i: nat, b: nat)
    requires DominatorTree(g, rpos, t) && In(t, b) && b != 0 && ClosestStrictDominator(g, i, b)
    ensures i == t[b]
  {
    LinkIsClosest(g, rpos, t, b);
    assert Anc(rpos, t, i, b);
    assert Dominates(g, t[b], i);
    AncRank(rpos, t, i, t[b]);
    AncRank(rpos, t, t[b], i);
  }

  /** Closest strict dominators, -1 for block 0 and for unreachable blocks. */
  method MakeImmediateDominators(g: Cfg) returns (idoms: array<int>, ghost rpos: seq<int>)
    requires g.Valid()
    ensures fresh(idoms) && idoms.Length == |g.succ| && idoms[0] == -1
    ensures DominatorTree(g, rpos, idoms[..][0 := 0])
    ensures forall b | 0 < b < idoms.Length && !Reachable(g, b) :: idoms[b] == -1
    ensures forall b | 0 < b < idoms.Length && Reachable(g, b) ::
              0 <= idoms[b] < idoms.Length && ClosestStrictDominator(g, idoms[b], b)
  {
    hide Inv, AtPosition, Numbered, Rank, MeetsBefore, Reachable, Dominates;
    var numbers := NumberBlocks(g);
    var order := OrderBlocks(g, numbers);
    rpos := numbers[..];
    idoms := new int[|g.succ|](i => if i == 0 then 0 else -1);
    StartsReady(g, rpos, idoms[..]);
    var changed := true;
    while changed
      invariant rpos == numbers[..] && Orders(g, rpos, order[..])
      invariant Sized(g, rpos, idoms[..]) && Inv(g, rpos, idoms[..])
      invariant if changed then AtPosition(g, rpos, idoms[..], 0)
                else AtPosition(g, rpos, idoms[..], idoms.Length) && MeetsBefore(g, rpos, idoms[..], idoms.Length)
      decreases Rank(rpos, idoms[..], idoms.Length), changed
    {
      changed := Sweep(g, numbers, order, idoms);
      if changed { Rewind(g, rpos, idoms[..]); }
    }
    ghost var t := idoms[..];
    StableIsDominatorTree(g, rpos, t);
    idoms[0] := -1;
    assert idoms[..][0 := 0] == t;
    forall b: nat | 0 < b < |t| && Reachable(g, b) ensures 0 <= t[b] < |t| && ClosestStrictDominator(g, t[b], b) {
      LinkIsClosest(g, rpos, t, b);
    }
  }

  /** The two computations agree: on a graph that is reachable throughout, the set MakeBlockDominance finds for
      a block is the chain of immediate dominators up from it. */
  lemma DominanceSetIsChain(g: Cfg, rpos: seq<int>, t: seq<int>, dom: seq<set<nat>>, d: nat, n: nat)
    requires g.Valid() && PredecessorFree(g, 0) && DominatorTree(g, rpos, t) && |dom| == |t|
    requires forall b: nat | b < |g.succ| :: Reachable(g, b)
    requires forall m, c: nat | 0 <= m < |dom| && c < |dom| :: c in dom[m] <==> OnEveryEntryPath(g, c, m)
    requires n < |dom| && d < |dom|
    ensures In(t, n) && (d in dom[n] <==> Anc(rpos, t, d, n))
  {
    hide Anc, Reachable, Dominates, OnEveryEntryPath;
    EntryPathsAreDominance(g, d, n);
  }
}
