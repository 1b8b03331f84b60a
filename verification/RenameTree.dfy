/** What renaming a whole subtree of the dominator tree does, and how the subtrees of a block add up
    (ssa.c:987-1004). A subtree names its own blocks and fills the slots of their edges. It leaves all other blocks
    alone and returns the stacks as they were, but for bottom entries on stacks that were empty. So the subtrees of
    the children of a block can be renamed one after the other, each starting from the stacks at the end of the
    block. */
module RenameTree {
  import opened Cfgs
  import opened DomTree
  import opened Ir
  import opened SsaNames
  import opened RenameState
  import opened RenameBlock
  import opened RenameEdges
  import opened Basics

  // Popping

  /** How many definitions of `v` lie among the first `k` phi functions of `b`, or, past them, among its first `i`
      instructions. */
  ghost function DefCount(f: Func, n: Names, b: nat, k: nat, i: nat, v: nat): nat
    requires Fits(f, n) && b < |f.phis| && k <= |f.phis[b]| && i <= f.Len(b) && v != 0
  {
    if i == 0 then |PhiDefs(f, n, b, k, v)| else |Defs(f, n, b, i, v)|
  }

  lemma {:induction false} PhiDefsGrow(f: Func, n: Names, b: nat, k: nat, l: nat, v: nat)
    requires Fits(f, n) && b < |f.phis| && k <= l <= |f.phis[b]|
    ensures |PhiDefs(f, n, b, k, v)| <= |PhiDefs(f, n, b, l, v)|
    decreases l
  {
    if k < l { PhiDefsGrow(f, n, b, k, l - 1, v); }
  }

  lemma {:induction false} DefsGrow(f: Func, n: Names, b: nat, i: nat, j: nat, v: nat)
    requires Fits(f, n) && b < |f.phis| && i <= j <= f.Len(b) && v != 0
    ensures |Defs(f, n, b, i, v)| <= |Defs(f, n, b, j, v)|
    decreases j
  {
    if i < j { DefsGrow(f, n, b, i, j - 1, v); }
  }

  /** Of the stacks `full`, the definitions counted by DefCount have been popped. */
  ghost predicate Popped(f: Func, s: Renaming, full: seq<seq<int>>, b: nat, k: nat, i: nat)
    requires Shaped(f, s) && b < |f.phis| && k <= |f.phis[b]| && i <= f.Len(b)
  {
    && |full| == |s.stacks|
    && forall v: nat | 0 < v < |full| ::
         && DefCount(f, s.names, b, k, i, v) <= |full[v]|
         && s.stacks[v] == full[v][..|full[v]| - DefCount(f, s.names, b, k, i, v)]
  }

  ghost function Pop(s: Renaming, v: nat): Renaming
    requires v < |s.stacks| && s.stacks[v] != []
  {
    s.(stacks := s.stacks[v := s.stacks[v][..|s.stacks[v]| - 1]])
  }

  /** The stacks at the end of the block hold all its definitions. */
  ghost predicate HoldsDefs(f: Func, n: Names, full: seq<seq<int>>, b: nat)
    requires Fits(f, n) && b < |f.phis|
  {
    forall v: nat | 0 < v < |full| :: |Defs(f, n, b, f.Len(b), v)| <= |full[v]|
  }

  lemma PopPhi(f: Func, s: Renaming, full: seq<seq<int>>, b: nat, k: nat)
    requires Shaped(f, s) && b < |f.phis| && k < |f.phis[b]| && Popped(f, s, full, b, k, 0)
      && HoldsDefs(f, s.names, full, b)
    ensures s.stacks[f.phis[b][k]] != [] && Shaped(f, Pop(s, f.phis[b][k]))
    ensures Popped(f, Pop(s, f.phis[b][k]), full, b, k + 1, 0)
  {
    hide Cfg.Valid;
    var w := f.phis[b][k];
    forall v: nat | 0 < v < |full| ensures DefCount(f, s.names, b, k + 1, 0, v) <= |full[v]| {
      PhiDefsGrow(f, s.names, b, k + 1, |f.phis[b]|, v);
      DefsGrow(f, s.names, b, 0, f.Len(b), v);
    }
    assert DefCount(f, s.names, b, k + 1, 0, w) == DefCount(f, s.names, b, k, 0, w) + 1;
  }

  lemma PopInstr(f: Func, s: Renaming, full: seq<seq<int>>, b: nat, i: nat)
    requires Shaped(f, s)
      && b < |f.phis| && i < f.Len(b) && Popped(f, s, full, b, |f.phis[b]|, i) && HoldsDefs(f, s.names, full, b)
    ensures var w := f.p.code[b][i].dst;
      if w == 0 then Popped(f, s, full, b, |f.phis[b]|, i + 1)
      else s.stacks[w] != [] && Shaped(f, Pop(s, w)) && Popped(f, Pop(s, w), full, b, |f.phis[b]|, i + 1)
  {
    hide Cfg.Valid;
    var w := f.p.code[b][i].dst;
    forall v: nat | 0 < v < |full|
      ensures DefCount(f, s.names, b, |f.phis[b]|, i + 1, v) <= |full[v]|
      ensures DefCount(f, s.names, b, |f.phis[b]|, i + 1, v) ==
                DefCount(f, s.names, b, |f.phis[b]|, i, v) + if v == w then 1 else 0
    {
      DefsGrow(f, s.names, b, i + 1, f.Len(b), v);
    }
  }

  /** Each stack is as it was, except that an empty one may hold the bottom entry. */
  ghost predicate Restored(entry: seq<seq<int>>, s: Renaming) {
    && |entry| == |s.stacks| == |s.bottom|
    && forall v: nat | 0 < v < |entry| :: s.stacks[v] == Base(entry, s.bottom, v)
  }

  lemma AllPopped(f: Func, s: Renaming, full: seq<seq<int>>, entry: seq<seq<int>>, b: nat)
    requires Shaped(f, s) && b < |f.phis| && Popped(f, s, full, b, |f.phis[b]|, f.Len(b)) && |entry| == |full|
    requires forall v: nat | 0 < v < |full| :: full[v] == Base(entry, s.bottom, v) + Defs(f, s.names, b, f.Len(b), v)
    ensures Restored(entry, s)
  {
    hide Cfg.Valid, Vregs;
    forall v: nat | 0 < v < |entry| ensures s.stacks[v] == Base(entry, s.bottom, v) {
      assert DefCount(f, s.names, b, |f.phis[b]|, f.Len(b), v) == |Defs(f, s.names, b, f.Len(b), v)|;
      assert full[v][..|full[v]| - |Defs(f, s.names, b, f.Len(b), v)|] == Base(entry, s.bottom, v);
    }
  }

  // Subtrees

  /** `x` is in the subtree of `b`. */
  ghost predicate Under(rpos: seq<int>, t: seq<int>, b: int, x: int)
    requires Tree(rpos, t)
  {
    In(t, x) && Anc(rpos, t, b, x)
  }

  /** `x` is under a child of `b` numbered below `i`. */
  ghost predicate UnderChild(rpos: seq<int>, t: seq<int>, b: int, i: nat, x: int)
    requires Tree(rpos, t)
  {
    exists c :: 0 < c < i && In(t, c) && t[c] == b && Under(rpos, t, c, x)
  }

  lemma {:induction false} UnderSplits(rpos: seq<int>, t: seq<int>, b: int, x: int)
    requires Tree(rpos, t) && Under(rpos, t, b, x)
    ensures x == b || UnderChild(rpos, t, b, |t|, x)
    decreases rpos[x]
  {
    if x != b {
      if t[x] == b {
        assert Under(rpos, t, x, x);
      } else {
        UnderSplits(rpos, t, b, t[x]);
        var c :| 0 < c < |t| && In(t, c) && t[c] == b && Under(rpos, t, c, t[x]);
        assert Under(rpos, t, c, x);
      }
    }
  }

  /** The subtrees of two children of `b` have no block in common, nor does the chain of one meet the other. */
  lemma SiblingsApart(rpos: seq<int>, t: seq<int>, b: int, c: int, d: int, x: int, y: int)
    requires Tree(rpos, t) && In(t, c) && In(t, d) && c != 0 && d != 0 && t[c] == b && t[d] == b && c != d
    requires Under(rpos, t, c, x) && In(t, y) && Anc(rpos, t, y, x)
    ensures !Under(rpos, t, d, y)
  {
    if Under(rpos, t, d, y) {
      AncRank(rpos, t, y, x);
      AncTrans(rpos, t, d, y, x);
      if rpos[c] <= rpos[d] { AncLinear(rpos, t, c, d, x); } else { AncLinear(rpos, t, d, c, x); }
      var lo, hi := if rpos[c] <= rpos[d] then c else d, if rpos[c] <= rpos[d] then d else c;
      assert Anc(rpos, t, lo, hi) && Anc(rpos, t, lo, b);
      AncRank(rpos, t, lo, b);
    }
  }

  /** The chain of `b` lies outside the subtree of its child `c`. */
  lemma ChainOutside(rpos: seq<int>, t: seq<int>, b: int, c: int, y: int)
    requires Tree(rpos, t) && In(t, c) && c != 0 && t[c] == b && In(t, y) && Anc(rpos, t, y, b)
    ensures !Under(rpos, t, c, y)
  {
    AncRank(rpos, t, y, b);
    if Under(rpos, t, c, y) { AncRank(rpos, t, c, y); }
  }

  // The contract of renaming a subtree

  ghost predicate Before(f: Func, s: Renaming, rpos: seq<int>, t: seq<int>, b: nat) {
    && Shaped(f, s) && TreeFor(f, rpos, t) && In(t, b)
    && EntryOk(f, s.names, rpos, t, b, s.stacks, s.bottom) && BottomOk(s) && AllArgsOk(f, s, rpos, t)
    && (forall x: nat | Under(rpos, t, b, x) :: NoEdgeFilled(f, s, x))
  }

  /** Blocks whose names and filled edges are as they were. */
  ghost predicate Untouched(f: Func, s: Renaming, u: Renaming, x: nat)
    requires Shaped(f, s) && Shaped(f, u) && x < |f.phis|
  {
    && SameBlock(s.names, u.names, x)
    && forall d | 0 <= d < |f.phis| :: multiset(u.sources[d])[x] == multiset(s.sources[d])[x]
  }

  ghost predicate Finished(f: Func, s: Renaming, rpos: seq<int>, t: seq<int>, x: nat)
    requires Shaped(f, s) && TreeFor(f, rpos, t) && In(t, x)
  {
    BlockOk(f, s, rpos, t, x) && EdgesFilled(f, s, x)
  }

  ghost predicate Progress(f: Func, s: Renaming, u: Renaming, rpos: seq<int>, t: seq<int>) {
    && Shaped(f, s) && Shaped(f, u) && TreeFor(f, rpos, t)
    && BottomGrows(s.bottom, u.bottom) && Grows(s.issued, u.issued) && BottomOk(u) && AllArgsOk(f, u, rpos, t)
  }

  ghost predicate After(f: Func, s: Renaming, u: Renaming, rpos: seq<int>, t: seq<int>, b: nat) {
    && Progress(f, s, u, rpos, t) && Restored(s.stacks, u) && KeepsBottom(s.stacks, s.bottom, u.bottom)
    && (forall x: nat | Under(rpos, t, b, x) :: Finished(f, u, rpos, t, x))
    && (forall x: nat | x < |f.phis| && !Under(rpos, t, b, x) :: Untouched(f, s, u, x))
  }

  /** Block `b` is done and so are the subtrees of its children numbered below `i`; the rest is as it was. */
  ghost predicate Between(f: Func, s: Renaming, u: Renaming, rpos: seq<int>, t: seq<int>, b: nat, i: nat) {
    && Progress(f, s, u, rpos, t) && In(t, b) && Here(f, u, rpos, t, s.stacks, s.bottom, b, f.Len(b))
    && Finished(f, u, rpos, t, b)
    && (forall x: nat | UnderChild(rpos, t, b, i, x) :: In(t, x) && Finished(f, u, rpos, t, x))
    && (forall x: nat | x < |f.phis| && x != b && !UnderChild(rpos, t, b, i, x) :: Untouched(f, s, u, x))
  }

  lemma FinishedStable(f: Func, s: Renaming, u: Renaming, rpos: seq<int>, t: seq<int>, x: nat)
    requires Progress(f, s, u, rpos, t) && In(t, x) && Finished(f, s, rpos, t, x) && |s.stacks| == |u.stacks|
    requires forall y: nat | In(t, y) && Anc(rpos, t, y, x) :: SameBlock(s.names, u.names, y)
    requires forall d | 0 <= d < |f.phis| :: multiset(u.sources[d])[x] == multiset(s.sources[d])[x]
    ensures Finished(f, u, rpos, t, x)
  {
    hide Cfg.Valid, AllArgsOk, BottomOk, Reach, Vregs, UsesOk, SitesOk;
    assert Anc(rpos, t, x, x);
    forall j, v: nat | 0 <= j < f.Len(x) && 0 < v < |s.stacks|
      ensures Reach(f, s.names, rpos, t, x, j, v) == Reach(f, u.names, rpos, t, x, j, v)
    {
      forall y | In(t, y) && Anc(rpos, t, y, x) ensures SameBlock(s.names, u.names, y) {}
      ReachFrame(f, s.names, u.names, rpos, t, x, j, v);
    }
    UsesStable(f, s, u, rpos, t, x, f.Len(x));
    SitesStable(f, s, u, x, |f.phis[x]|, f.Len(x));
    forall d | 0 <= d < |f.phis| ensures multiset(u.sources[d])[x] == multiset(f.p.g.succ[x])[d] {
      assert multiset(u.sources[d])[x] == multiset(s.sources[d])[x];
    }
  }

  /** Before a child, the stacks hold the names that reach the end of `b`. */
  lemma ChildEntry(f: Func, s: Renaming, rpos: seq<int>, t: seq<int>, entry: seq<seq<int>>, was: seq<int>, b: nat,
                   c: nat)
    requires b < |f.p.code| && Here(f, s, rpos, t, entry, was, b, f.Len(b)) && In(t, c) && c != 0 && t[c] == b
    ensures EntryOk(f, s.names, rpos, t, c, s.stacks, s.bottom)
  {
    hide Cfg.Valid, EntryOk, StacksAre, BottomOk, Vregs, Defs;
    forall v: nat | 0 < v < |s.stacks|
      ensures match Entering(f, s.names, rpos, t, c, v)
        case Some(x) => s.stacks[v] != [] && s.stacks[v][|s.stacks[v]| - 1] == x
        case None => s.stacks[v] == if s.bottom[v] == -1 then [] else [s.bottom[v]]
    {
      TopIsName(f, s, rpos, t, entry, was, b, f.Len(b), v);
      if Reach(f, s.names, rpos, t, b, f.Len(b), v) == None { StackWithoutDefs(f, s, rpos, t, entry, was, b, v); }
    }
    EntryIntro(f, s.names, rpos, t, c, s.stacks, s.bottom);
  }

  lemma EntryIntro(f: Func, n: Names, rpos: seq<int>, t: seq<int>, b: int, entry: seq<seq<int>>, bottom: seq<int>)
    requires Fits(f, n) && TreeFor(f, rpos, t) && In(t, b) && |entry| == |bottom|
    requires forall v: nat | 0 < v < |entry| ::
      match Entering(f, n, rpos, t, b, v)
      case Some(x) => entry[v] != [] && entry[v][|entry[v]| - 1] == x
      case None => entry[v] == if bottom[v] == -1 then [] else [bottom[v]]
    ensures EntryOk(f, n, rpos, t, b, entry, bottom)
  {
  }

  lemma StackWithoutDefs(f: Func, s: Renaming, rpos: seq<int>, t: seq<int>, entry: seq<seq<int>>, was: seq<int>,
                         b: nat, v: nat)
    requires b < |f.p.code| && Here(f, s, rpos, t, entry, was, b, f.Len(b)) && 0 < v < |s.stacks|
    requires Reach(f, s.names, rpos, t, b, f.Len(b), v) == None
    ensures s.stacks[v] == if s.bottom[v] == -1 then [] else [s.bottom[v]]
  {
    hide Cfg.Valid, Vregs, BottomOk;
    assert Entering(f, s.names, rpos, t, b, v) == None;
    assert Defs(f, s.names, b, f.Len(b), v) == [];
    assert s.stacks[v] == Base(entry, s.bottom, v) + [];
  }

  lemma ChildBefore(f: Func, s: Renaming, u: Renaming, rpos: seq<int>, t: seq<int>, b: nat, c: nat)
    requires Between(f, s, u, rpos, t, b, c) && 0 < c < |t| && In(t, c) && t[c] == b
    requires forall x: nat | Under(rpos, t, b, x) :: NoEdgeFilled(f, s, x)
    ensures Before(f, u, rpos, t, c)
  {
    hide Cfg.Valid, Vregs, EntryOk, AllArgsOk, BottomOk, Finished, StacksAre, Defs, Entering;
    ChildEntry(f, u, rpos, t, s.stacks, s.bottom, b, c);
    forall x: nat | Under(rpos, t, c, x) ensures NoEdgeFilled(f, u, x) {
      AncTrans(rpos, t, b, c, x) by { assert Anc(rpos, t, b, c); }
      assert x != b by { if x == b { AncRank(rpos, t, c, b); } }
      if UnderChild(rpos, t, b, c, x) {
        var d :| 0 < d < c && In(t, d) && t[d] == b && Under(rpos, t, d, x);
        SiblingsApart(rpos, t, b, c, d, x, x);
      }
      assert Untouched(f, s, u, x);
      UntouchedUnfilled(f, s, u, x);
    }
  }

  lemma UntouchedUnfilled(f: Func, s: Renaming, u: Renaming, x: nat)
    requires Shaped(f, s) && Shaped(f, u) && x < |f.phis| && Untouched(f, s, u, x) && NoEdgeFilled(f, s, x)
    ensures NoEdgeFilled(f, u, x)
  {
    hide Cfg.Valid, Vregs;
    forall d | 0 <= d < |f.phis| ensures x !in u.sources[d] {
      assert x !in multiset(s.sources[d]);
      assert multiset(u.sources[d])[x] == multiset(s.sources[d])[x];
    }
  }

  lemma ProgressTrans(f: Func, s: Renaming, u: Renaming, w: Renaming, rpos: seq<int>, t: seq<int>)
    requires Progress(f, s, u, rpos, t) && Progress(f, u, w, rpos, t)
    ensures Progress(f, s, w, rpos, t)
  {
    hide Cfg.Valid, Vregs, AllArgsOk, BottomOk;
  }

  /** After a child, the stacks are still those of the end of `b`. */
  lemma ChildStacks(f: Func, s: Renaming, u: Renaming, w: Renaming, rpos: seq<int>, t: seq<int>, b: nat, c: nat)
    requires b < |f.p.code| && Here(f, u, rpos, t, s.stacks, s.bottom, b, f.Len(b)) && After(f, u, w, rpos, t, c)
    requires 0 < c && In(t, c) && t[c] == b && |s.stacks| == |u.stacks|
    ensures |w.stacks| == |s.stacks| && StacksAre(f, w, s.stacks, b, f.Len(b))
    ensures KeepsBottom(s.stacks, s.bottom, w.bottom) && BottomGrows(s.bottom, w.bottom)
  {
    hide Cfg.Valid, Vregs, AllArgsOk, BottomOk, EntryOk, Finished, Defs;
    ChainOutside(rpos, t, b, c, b) by { assert Anc(rpos, t, b, b); }
    assert Untouched(f, u, w, b);
    forall v: nat | 0 < v < |s.stacks|
      ensures w.stacks[v] == Base(s.stacks, w.bottom, v) + Defs(f, w.names, b, f.Len(b), v)
      ensures s.stacks[v] != [] ==> w.bottom[v] == s.bottom[v]
    {
      DefsFrame(f, u.names, w.names, b, f.Len(b), v);
      var d := Defs(f, u.names, b, f.Len(b), v);
      assert u.stacks[v] == Base(s.stacks, u.bottom, v) + d;
      assert w.stacks[v] == Base(u.stacks, w.bottom, v);
      if u.stacks[v] == [] {
        assert Base(s.stacks, u.bottom, v) == [] && d == [] && s.stacks[v] == [];
        assert Base(s.stacks, w.bottom, v) + [] == Base(s.stacks, w.bottom, v);
      } else {
        assert w.bottom[v] == u.bottom[v];
      }
    }
  }

  lemma ChildHere(f: Func, s: Renaming, u: Renaming, w: Renaming, rpos: seq<int>, t: seq<int>, b: nat, c: nat)
    requires b < |f.p.code| && Here(f, u, rpos, t, s.stacks, s.bottom, b, f.Len(b)) && After(f, u, w, rpos, t, c)
    requires 0 < c && In(t, c) && t[c] == b && |s.stacks| == |u.stacks|
    ensures Here(f, w, rpos, t, s.stacks, s.bottom, b, f.Len(b))
  {
    hide Cfg.Valid, Vregs, AllArgsOk, BottomOk, EntryOk, Finished, Defs, StacksAre, Entering;
    ChildStacks(f, s, u, w, rpos, t, b, c);
    forall v: nat | v != 0 ensures Entering(f, u.names, rpos, t, b, v) == Entering(f, w.names, rpos, t, b, v) {
      forall x | In(t, x) && x != b && Anc(rpos, t, x, b) ensures SameBlock(u.names, w.names, x) {
        ChainOutside(rpos, t, b, c, x);
        assert Untouched(f, u, w, x);
      }
      EnteringFrame(f, u.names, w.names, rpos, t, b, v);
    }
    EntryStable(f, u.names, w.names, rpos, t, b, s.stacks, s.bottom);
  }

  /** A finished block outside the subtree of `c`, on whose chain no block of that subtree lies, stays finished. */
  lemma FinishedOutside(f: Func, u: Renaming, w: Renaming, rpos: seq<int>, t: seq<int>, c: nat, x: nat)
    requires After(f, u, w, rpos, t, c) && In(t, x) && Finished(f, u, rpos, t, x) && |u.stacks| == |w.stacks|
    requires forall y: nat | In(t, y) && Anc(rpos, t, y, x) :: !Under(rpos, t, c, y)
    ensures Finished(f, w, rpos, t, x)
  {
    hide Cfg.Valid, Vregs, AllArgsOk, BottomOk, BlockOk, EdgesFilled;
    forall y: nat | In(t, y) && Anc(rpos, t, y, x) ensures SameBlock(u.names, w.names, y) {
      assert Untouched(f, u, w, y);
    }
    assert Anc(rpos, t, x, x);
    assert Untouched(f, u, w, x);
    FinishedStable(f, u, w, rpos, t, x);
  }

  lemma ChildStep(f: Func, s: Renaming, u: Renaming, w: Renaming, rpos: seq<int>, t: seq<int>, b: nat, c: nat)
    requires Between(f, s, u, rpos, t, b, c) && 0 < c < |t| && In(t, c) && t[c] == b && After(f, u, w, rpos, t, c)
    ensures Between(f, s, w, rpos, t, b, c + 1)
  {
    hide Cfg.Valid, Vregs, AllArgsOk, BottomOk, EntryOk, Finished, Defs, StacksAre, Entering, Restored;
    ProgressTrans(f, s, u, w, rpos, t);
    ChildHere(f, s, u, w, rpos, t, b, c);
    forall y: nat | In(t, y) && Anc(rpos, t, y, b) ensures !Under(rpos, t, c, y) { ChainOutside(rpos, t, b, c, y); }
    FinishedOutside(f, u, w, rpos, t, c, b);
    forall x: nat | UnderChild(rpos, t, b, c + 1, x) ensures In(t, x) && Finished(f, w, rpos, t, x) {
      var d :| 0 < d < c + 1 && In(t, d) && t[d] == b && Under(rpos, t, d, x);
      if d < c {
        assert UnderChild(rpos, t, b, c, x);
        forall y: nat | In(t, y) && Anc(rpos, t, y, x) ensures !Under(rpos, t, c, y) {
          SiblingsApart(rpos, t, b, d, c, x, y);
        }
        FinishedOutside(f, u, w, rpos, t, c, x);
      }
    }
    forall x: nat | x < |f.phis| && x != b && !UnderChild(rpos, t, b, c + 1, x) ensures Untouched(f, s, w, x) {
      NotUnderNext(rpos, t, b, c, x);
      assert Untouched(f, s, u, x) && Untouched(f, u, w, x);
      UntouchedTrans(f, s, u, w, x);
    }
  }

  lemma NotUnderNext(rpos: seq<int>, t: seq<int>, b: int, c: nat, x: int)
    requires Tree(rpos, t) && 0 < c && !UnderChild(rpos, t, b, c + 1, x)
    ensures !UnderChild(rpos, t, b, c, x) && (In(t, c) && t[c] == b ==> !Under(rpos, t, c, x))
  {
  }

  lemma UntouchedTrans(f: Func, s: Renaming, u: Renaming, w: Renaming, x: nat)
    requires Shaped(f, s) && Shaped(f, u) && Shaped(f, w) && x < |f.phis| && Untouched(f, s, u, x)
      && Untouched(f, u, w, x)
    ensures Untouched(f, s, w, x)
  {
    hide Cfg.Valid, Vregs;
    forall d | 0 <= d < |f.phis| ensures multiset(w.sources[d])[x] == multiset(s.sources[d])[x] {
      assert multiset(w.sources[d])[x] == multiset(u.sources[d])[x];
    }
  }

  lemma NotAChild(f: Func, s: Renaming, u: Renaming, rpos: seq<int>, t: seq<int>, b: nat, c: nat)
    requires Between(f, s, u, rpos, t, b, c) && !(0 < c && In(t, c) && t[c] == b)
    ensures Between(f, s, u, rpos, t, b, c + 1)
  {
    hide Cfg.Valid, Vregs, AllArgsOk, BottomOk, EntryOk, Finished, Defs, StacksAre, Entering, Untouched, UnderChild;
    hide Here, Anc, Under;
    forall x: nat ensures UnderChild(rpos, t, b, c + 1, x) <==> UnderChild(rpos, t, b, c, x) {
      SameUnderChildren(rpos, t, b, c, x);
    }
  }

  lemma SameUnderChildren(rpos: seq<int>, t: seq<int>, b: int, c: nat, x: int)
    requires Tree(rpos, t) && !(0 < c && In(t, c) && t[c] == b)
    ensures UnderChild(rpos, t, b, c + 1, x) <==> UnderChild(rpos, t, b, c, x)
  {
    hide Under;
    if UnderChild(rpos, t, b, c + 1, x) {
      var d :| 0 < d < c + 1 && In(t, d) && t[d] == b && Under(rpos, t, d, x);
      assert d < c;
    }
  }

  /** When all children are done, only popping is left. */
  lemma SubtreeDone(f: Func, s: Renaming, u: Renaming, w: Renaming, rpos: seq<int>, t: seq<int>, b: nat)
    requires Between(f, s, u, rpos, t, b, |t|)
    requires w == u.(stacks := w.stacks) && BottomOk(w) && Restored(s.stacks, w)
    ensures After(f, s, w, rpos, t, b)
  {
    hide Cfg.Valid, BottomOk, EntryOk, Defs, StacksAre, Entering, NameAt, Reach;
    StacksDoNotMatter(f, u, w, rpos, t);
    forall x: nat | Under(rpos, t, b, x) ensures Finished(f, w, rpos, t, x) {
      UnderSplits(rpos, t, b, x);
      assert Finished(f, u, rpos, t, x);
    }
    forall x: nat | x < |f.phis| && !Under(rpos, t, b, x) ensures Untouched(f, s, w, x) {
      NotUnderAnyChild(rpos, t, b, x);
      assert Untouched(f, s, u, x);
    }
  }

  lemma NotUnderAnyChild(rpos: seq<int>, t: seq<int>, b: int, x: int)
    requires Tree(rpos, t) && In(t, b) && !Under(rpos, t, b, x)
    ensures x != b && !UnderChild(rpos, t, b, |t|, x)
  {
    assert Under(rpos, t, b, b);
    if UnderChild(rpos, t, b, |t|, x) {
      var d :| 0 < d < |t| && In(t, d) && t[d] == b && Under(rpos, t, d, x);
      AncTrans(rpos, t, b, d, x) by { assert Anc(rpos, t, b, d); }
    }
  }

  lemma StacksDoNotMatter(f: Func, u: Renaming, w: Renaming, rpos: seq<int>, t: seq<int>)
    requires Shaped(f, u) && TreeFor(f, rpos, t) && w == u.(stacks := w.stacks)
      && |w.stacks| == |u.stacks| && AllArgsOk(f, u, rpos, t)
    ensures Shaped(f, w) && AllArgsOk(f, w, rpos, t)
    ensures forall x: nat | In(t, x) && Finished(f, u, rpos, t, x) :: Finished(f, w, rpos, t, x)
  {
    hide Cfg.Valid, Reach;
    forall d: nat | d < |f.phis| ensures ArgsOk(f, w, rpos, t, d) { assert ArgsOk(f, u, rpos, t, d); }
  }

  // The block itself

  /** Since `s` only the names of block `b` have changed, and subscripts were issued. */
  ghost predicate OnlyNames(f: Func, s: Renaming, u: Renaming, b: nat)
    requires Shaped(f, s) && Shaped(f, u)
  {
    && u.args == s.args && u.sources == s.sources && |u.stacks| == |s.stacks|
    && BottomGrows(s.bottom, u.bottom) && Grows(s.issued, u.issued)
    && forall x: nat | x < |f.phis| && x != b :: SameBlock(s.names, u.names, x)
  }

  /** Naming a block of a subtree none of whose edges is filled leaves all phi slots right. */
  lemma NamingKeepsArgs(f: Func, s: Renaming, u: Renaming, rpos: seq<int>, t: seq<int>, b: nat)
    requires Shaped(f, s) && Shaped(f, u) && TreeFor(f, rpos, t) && In(t, b) && OnlyNames(f, s, u, b)
      && AllArgsOk(f, s, rpos, t)
    requires forall x: nat | Under(rpos, t, b, x) :: NoEdgeFilled(f, s, x)
    ensures AllArgsOk(f, u, rpos, t)
  {
    hide Cfg.Valid, Vregs, AllArgsOk, Reach;
    forall d, x, v: nat | 0 <= d < |s.sources| && x in s.sources[d] && In(t, x) && v != 0
      ensures Reach(f, s.names, rpos, t, x, f.Len(x), v) == Reach(f, u.names, rpos, t, x, f.Len(x), v)
    {
      assert !NoEdgeFilled(f, s, x);
      assert !Under(rpos, t, b, x);
      forall y | In(t, y) && Anc(rpos, t, y, x) ensures SameBlock(s.names, u.names, y) {}
      ReachFrame(f, s.names, u.names, rpos, t, x, f.Len(x), v);
    }
    ArgsStable(f, s, u, rpos, t);
  }

  lemma MidStable(f: Func, s: Renaming, u: Renaming, rpos: seq<int>, t: seq<int>, entry: seq<seq<int>>, was: seq<int>,
                  b: nat, i: nat)
    requires Mid(f, s, rpos, t, entry, was, b, i) && Here(f, u, rpos, t, entry, was, b, i)
    requires u.names == s.names && BottomGrows(s.bottom, u.bottom) && Grows(s.issued, u.issued)
    ensures Mid(f, u, rpos, t, entry, was, b, i)
  {
    hide Cfg.Valid, Vregs, EntryOk, StacksAre, BottomOk, UsesOk, SitesOk, Reach;
    UsesStable(f, s, u, rpos, t, b, i);
    SitesStable(f, s, u, b, |f.phis[b]|, i);
  }

  /** Since `s` only edges from `b` have filled slots. */
  ghost predicate OnlyEdgesOf(f: Func, s: Renaming, u: Renaming, b: nat)
    requires Shaped(f, s) && Shaped(f, u)
  {
    forall d, x: nat | 0 <= d < |f.phis| && x != b :: multiset(u.sources[d])[x] == multiset(s.sources[d])[x]
  }

  lemma BlockDone(f: Func, s: Renaming, u: Renaming, rpos: seq<int>, t: seq<int>, b: nat)
    requires Shaped(f, s) && Shaped(f, u) && TreeFor(f, rpos, t) && In(t, b)
    requires Mid(f, u, rpos, t, s.stacks, s.bottom, b, f.Len(b)) && AllArgsOk(f, u, rpos, t)
    requires Grows(s.issued, u.issued) && EdgeCount(f, u, b, |f.p.g.succ[b]|) && OnlyEdgesOf(f, s, u, b)
    requires forall x: nat | x < |f.phis| && x != b :: SameBlock(s.names, u.names, x)
    ensures Between(f, s, u, rpos, t, b, 0)
  {
    hide Cfg.Valid, Vregs, EntryOk, StacksAre, BottomOk, UsesOk, SitesOk, AllArgsOk;
    var out := f.p.g.succ[b];
    assert out[..|out|] == out;
  }

  lemma StartBlock(f: Func, s: Renaming, rpos: seq<int>, t: seq<int>, b: nat)
    requires Before(f, s, rpos, t, b)
    ensures PhiMid(f, s, rpos, t, s.stacks, s.bottom, b, 0) && OnlyNames(f, s, s, b)
  {
    hide Cfg.Valid, Vregs, AllArgsOk;
    assert forall v: nat | 0 < v < |s.stacks| :: s.stacks[v] == Base(s.stacks, s.bottom, v) + [];
  }

  lemma NoEdgesYet(f: Func, s: Renaming, u: Renaming, b: nat)
    requires Shaped(f, s) && Shaped(f, u) && b < |f.phis| && NoEdgeFilled(f, s, b) && u.sources == s.sources
    ensures EdgeCount(f, u, b, 0) && OnlyEdgesOf(f, s, u, b)
  {
    hide Cfg.Valid, Vregs;
    forall d | 0 <= d < |f.phis| ensures multiset(u.sources[d])[b] == multiset(f.p.g.succ[b][..0])[d] {
      assert b !in multiset(s.sources[d]);
    }
  }

  lemma OnlyNamesTrans(f: Func, s: Renaming, u: Renaming, w: Renaming, b: nat)
    requires Shaped(f, s) && Shaped(f, u) && Shaped(f, w) && OnlyNames(f, s, u, b) && OnlyNames(f, u, w, b)
    ensures OnlyNames(f, s, w, b)
  {
    hide Cfg.Valid, Vregs;
    GrowsTrans(s.issued, u.issued, w.issued);
    forall x: nat | x < |f.phis| && x != b ensures SameBlock(s.names, w.names, x) {
      assert SameBlock(s.names, u.names, x) && SameBlock(u.names, w.names, x);
    }
  }

  lemma GrowsTrans<T>(a: seq<seq<T>>, b: seq<seq<T>>, c: seq<seq<T>>)
    requires Grows(a, b) && Grows(b, c)
    ensures Grows(a, c)
  {
  }

  lemma NamePhiOnly(f: Func, s: Renaming, b: nat, k: nat)
    requires Shaped(f, s) && b < |f.phis| && k < |f.phis[b]| && Shaped(f, NamePhi(f, s, b, k))
    ensures OnlyNames(f, s, NamePhi(f, s, b, k), b)
  {
    hide Cfg.Valid;
  }

  lemma NameInstrOnly(f: Func, s: Renaming, b: nat, i: nat, a: int, c: int)
    requires Shaped(f, s) && b < |f.phis| && i < f.Len(b) && Shaped(f, NameInstr(f, s, b, i, a, c))
    ensures OnlyNames(f, s, NameInstr(f, s, b, i, a, c), b)
  {
    hide Cfg.Valid;
  }

  /** Naming the sources and then the destination of one instruction. */
  ghost function InstrNamed(f: Func, s: Renaming, b: nat, i: nat): Renaming
    requires Shaped(f, s) && b < |f.phis| && i < f.Len(b)
  {
    hide Cfg.Valid;
    var tac := f.p.code[b][i];
    var u := Ensured(s, tac.src1);
    NameInstr(f, Ensured(u, tac.src2), b, i, UseName(s, tac.src1), UseName(u, tac.src2))
  }

  lemma InstrStep(f: Func, s: Renaming, rpos: seq<int>, t: seq<int>, entry: seq<seq<int>>, was: seq<int>, b: nat,
                  i: nat)
    requires b < |f.p.code| && Mid(f, s, rpos, t, entry, was, b, i) && i < f.Len(b)
    ensures Shaped(f, InstrNamed(f, s, b, i))
    ensures Mid(f, InstrNamed(f, s, b, i), rpos, t, entry, was, b, i + 1) && OnlyNames(f, s, InstrNamed(f, s, b, i), b)
  {
    hide Cfg.Valid, UseOk, UsesOk, SitesOk, StacksAre, EntryOk, BottomOk, OnlyNames;
    var tac := f.p.code[b][i];
    var u := Ensured(s, tac.src1);
    var w := Ensured(u, tac.src2);
    EnsuredKeepsMid(f, s, rpos, t, entry, was, b, i, tac.src1);
    EnsuredKeepsMid(f, u, rpos, t, entry, was, b, i, tac.src2);
    UseStaysOk(f, u, rpos, t, b, i, tac.src1, UseName(s, tac.src1), tac.src2);
    NameInstrKeepsMid(f, w, rpos, t, entry, was, b, i, UseName(s, tac.src1), UseName(u, tac.src2));
    EnsuredOnly(f, s, b, tac.src1);
    EnsuredOnly(f, u, b, tac.src2);
    NameInstrOnly(f, w, b, i, UseName(s, tac.src1), UseName(u, tac.src2));
    OnlyNamesTrans(f, s, u, w, b);
    OnlyNamesTrans(f, s, w, InstrNamed(f, s, b, i), b);
  }

  lemma EnsuredOnly(f: Func, s: Renaming, b: nat, v: nat)
    requires Shaped(f, s) && v < |s.stacks| && Shaped(f, Ensured(s, v))
    requires BottomGrows(s.bottom, Ensured(s, v).bottom) && Grows(s.issued, Ensured(s, v).issued)
    ensures OnlyNames(f, s, Ensured(s, v), b)
  {
    hide Cfg.Valid, Vregs;
  }

  lemma GrowsRefl<T>(a: seq<seq<T>>)
    ensures Grows(a, a)
  {
  }

  lemma BottomGrowsRefl(a: seq<int>)
    ensures BottomGrows(a, a)
  {
  }

  lemma MidIsHere(f: Func, s: Renaming, rpos: seq<int>, t: seq<int>, entry: seq<seq<int>>, was: seq<int>, b: nat,
                  i: nat)
    requires Mid(f, s, rpos, t, entry, was, b, i)
    ensures Here(f, s, rpos, t, entry, was, b, i)
  {
  }

  lemma SuccInRange(f: Func, s: Renaming, b: nat, e: nat)
    requires Shaped(f, s) && b < |f.phis| && e < |f.p.g.succ[b]|
    ensures f.p.g.succ[b][e] < |f.phis|
  {
    assert f.p.g.succ[b][e] in f.p.g.succ[b];
  }

  lemma CountUnchanged(f: Func, s: Renaming, u: Renaming, b: nat, e: nat)
    requires Shaped(f, s) && Shaped(f, u) && b < |f.phis| && e <= |f.p.g.succ[b]|
    requires EdgeCount(f, s, b, e) && u.sources == s.sources
    ensures EdgeCount(f, u, b, e)
  {
  }

  lemma StartPops(f: Func, s: Renaming, entry: seq<seq<int>>, b: nat)
    requires Shaped(f, s) && b < |f.phis| && StacksAre(f, s, entry, b, f.Len(b))
    ensures Popped(f, s, s.stacks, b, 0, 0) && HoldsDefs(f, s.names, s.stacks, b)
  {
    hide Cfg.Valid, Vregs;
  }

  lemma RestoredSound(s: Renaming, u: Renaming, w: Renaming)
    requires BottomOk(s) && BottomOk(u) && w == u.(stacks := w.stacks) && Restored(s.stacks, w)
      && |s.stacks| == |u.stacks|
    ensures BottomOk(w)
  {
    forall v, j | 0 < v < |w.stacks| && 0 <= j < |w.stacks[v]| ensures 0 <= w.stacks[v][j] {
      assert w.stacks[v] == Base(s.stacks, w.bottom, v);
    }
  }

  lemma BetweenIsHere(f: Func, s: Renaming, u: Renaming, rpos: seq<int>, t: seq<int>, b: nat, i: nat)
    requires Between(f, s, u, rpos, t, b, i)
    ensures Shaped(f, s) && Shaped(f, u) && b < |f.phis| && |s.stacks| == |u.stacks| && BottomOk(u)
    ensures StacksAre(f, u, s.stacks, b, f.Len(b))
  {
    hide Cfg.Valid, Vregs;
  }

  lemma ChildDeeper(rpos: seq<int>, t: seq<int>, b: int, c: int)
    requires Tree(rpos, t) && In(t, c) && c != 0 && t[c] == b
    ensures rpos[b] < rpos[c]
  {
  }
}
