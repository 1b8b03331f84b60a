/** All passes into SSA form and out of it (ssa.c:278-1227). */
module SsaPipeline {
  import opened Cfgs
  import opened Dominance
  import opened DomTree
  import opened Idom
  import opened Frontiers
  import opened PhiPlacement
  import opened Ir
  import opened SsaNames
  import opened RenameState
  import opened Rename
  import opened Components
  import opened LiveRanges
  import opened SsaRoundTrip
  import opened LocalUse
  import opened Globals
  import opened LeavingSsa

  // Phi functions

  ghost predicate Ascending(s: seq<nat>) {
    forall i | 0 < i < |s| :: s[i - 1] < s[i]
  }

  ghost predicate Lists(s: seq<nat>, vars: set<nat>) {
    Ascending(s) && forall v :: v in s <==> v in vars
  }

  /** The phi functions of a block, each put in front of those before: they end up in ascending order. */
  method PhiList(vars: set<nat>, count: nat) returns (s: seq<nat>)
    requires forall v | v in vars :: v <= count
    ensures Lists(s, vars)
  {
    s := [];
    for v := count + 1 downto 0
      invariant Ascending(s) && forall u :: u in s <==> u in vars && u >= v
      invariant s != [] ==> s[0] >= v
    {
      if v in vars { s := [v] + s; }
    }
  }

  method InsertPhis(p: Program, phi: array<set<nat>>, count: nat) returns (f: Func)
    requires p.Valid() && phi.Length == |p.code| && forall d, v | 0 <= d < phi.Length && v in phi[d] :: 0 < v <= count
    ensures f.p == p && f.Valid() && forall d | 0 <= d < |f.phis| :: Lists(f.phis[d], phi[d])
  {
    var phis: seq<seq<nat>> := [];
    for d := 0 to phi.Length
      invariant |phis| == d && forall e | 0 <= e < d :: Lists(phis[e], phi[e])
    {
      var s := PhiList(phi[d], count);
      phis := phis + [s];
    }
    forall d, k | 0 <= d < |phis| && 0 <= k < |phis[d]| ensures phis[d][k] != 0 {
      assert phis[d][k] in phi[d];
    }
    f := Func(p, phis);
  }

  lemma ClosedIsPlaced(f: Func, rpos: seq<int>, t: seq<int>, df: seq<set<nat>>, globals: set<nat>,
                       varBlocks: seq<set<nat>>, phi: seq<set<nat>>)
    requires f.Valid() && DominatorTree(f.p.g, rpos, t) && |df| == |f.phis| == |phi| == |t|
    requires forall b: nat, d: nat | In(t, b) :: d in df[b] <==> d < |t| && InFrontier(f.p.g, d, b)
    requires forall v | v in globals :: 0 < v < |varBlocks| && LeastClosed(df, varBlocks[v], Placed(phi, v))
    requires forall v: nat, b: nat | 0 < v < |varBlocks| :: b in varBlocks[v] <==> b < |f.phis| && Writes(f.p, b, v)
    requires forall v: nat :: v in globals <==> IsGlobal(f.p, v)
    requires forall d | 0 <= d < |f.phis| :: Lists(f.phis[d], phi[d])
    ensures PhisPlaced(f)
  {
    hide Cfg.Valid, IsGlobal, DefinedBefore, LeastClosed, Dominates, Reachable, Anc;
    forall v: nat, b: nat, d: nat | v != 0 && b < |f.phis| && b < |f.p.code| && d < |f.phis| && IsGlobal(f.p, v) &&
        (Writes(f.p, b, v) || v in f.phis[b]) && InFrontier(f.p.g, d, b)
      ensures v in f.phis[d]
    {
      FrontierOwnerReachable(f.p.g, d, b);
      assert v in globals && In(t, b);
      LeastIsClosed(df, varBlocks[v], Placed(phi, v), b, d);
    }
  }

  lemma LeastIsClosed(df: seq<set<nat>>, defs: set<nat>, s: set<nat>, b: nat, d: nat)
    requires LeastClosed(df, defs, s) && (b in defs || b in s) && b < |df| && d in df[b]
    ensures d in s
  {
  }

  lemma FrontierOwnerReachable(g: Cfg, d: nat, b: nat)
    requires InFrontier(g, d, b)
    ensures Reachable(g, b)
  {
    var p :| FrontierVia(g, d, b, p);
    DominatorReachable(g, b, p);
  }

  /** Dominators, frontiers, globals and phi functions. */
  method IntoSsa(p: Program) returns (f: Func, idoms: array<int>, count: nat, ghost rpos: seq<int>)
    requires p.Valid() && PredecessorFree(p.g, 0)
    ensures f.p == p && f.Valid() && PhisPlaced(f) && Vregs(f, count + 1)
    ensures idoms.Length == |f.phis| && idoms[0] == -1 && DominatorTree(p.g, rpos, idoms[..][0 := 0])
  {
    hide Cfg.Valid, Dominates, Reachable, Anc, IsGlobal, DefinedBefore, LeastClosed, InFrontier;
    count := MakeVregCount(p);
    idoms, rpos := MakeImmediateDominators(p.g);
    ghost var t := idoms[..][0 := 0];
    assert idoms[..] == t[0 := -1];
    var df := MakeDominanceFrontiers(p.g, idoms, rpos, t);
    var globals, varBlocks := MakeGlobalsAndVarBlocks(p, count);
    forall v | v in globals ensures 0 < v <= count && Bounded(df[..], varBlocks[v]) { GlobalBounded(p, count, v); }
    var phi := PlacePhiFunctions(df, globals, varBlocks[..]);
    forall d, v | 0 <= d < phi.Length && v in phi[d] ensures 0 < v <= count { assert v in globals; }
    f := InsertPhis(p, phi, count);
    ClosedIsPlaced(f, rpos, t, df[..], globals, varBlocks[..], phi[..]);
    forall b, k | 0 <= b < |f.phis| && 0 <= k < |f.phis[b]| ensures f.phis[b][k] <= count {
      assert f.phis[b][k] in phi[b];
    }
    forall b, i | 0 <= b < |p.code| && 0 <= i < |p.code[b]|
      ensures p.code[b][i].dst <= count && p.code[b][i].src1 <= count && p.code[b][i].src2 <= count
    {
      assert BoundedBy(p, count, b, |p.code[b]|);
    }
  }

  lemma GlobalBounded(p: Program, count: nat, v: nat)
    requires forall b | 0 <= b < |p.code| :: BoundedBy(p, count, b, |p.code[b]|)
    requires IsGlobal(p, v)
    ensures 0 < v <= count
  {
    hide DefinedBefore;
    var b :| 0 <= b < |p.code| && Exposed(p, b, v);
    var i :| 0 <= i < |p.code[b]| && Uses(p.code[b][i], v) && !DefinedBefore(p, b, i, v);
    assert BoundedBy(p, count, b, |p.code[b]|);
  }

  /** Live ranges, and the code with live ranges for vregs. */
  method OutOf(f: Func, renamer: Renamer, count: nat, offset: nat) returns (q: Program, r: Ranges)
    requires Shaped(f, renamer.State()) && Vregs(f, count + 1)
    ensures Grouped(f, renamer.State(), r) && OutOfSsa(f, renamer.State(), r, q) && q.Valid()
    ensures forall v: nat, x | r.Knows(v, x) :: r.Of(v, x) > offset
  {
    hide Cfg.Valid, Collected, Connected, Grouped, Vregs;
    ghost var s := renamer.State();
    var keys, phis := CollectNames(f, s, count, renamer.phiSubs, renamer.codeSubs, renamer.phiArgs);
    CollectedPhis(f, s, count, keys, phis);
    var lr := MakeLiveRanges(keys, phis, offset);
    r := Ranges(lr, count);
    RangesGroup(f, s, count, keys, phis, lr);
    q := AssignRanges(f, s, renamer.codeSubs, r);
  }

  lemma CollectedPhis(f: Func, s: Renaming, count: nat, keys: set<Name>, phis: seq<Phi>)
    requires Shaped(f, s) && Collected(f, s, count, keys, phis, |f.phis|, 0, 0)
    ensures forall i | 0 <= i < |phis| :: phis[i].dst in keys && forall a | a in phis[i].args :: a in keys
  {
    hide ListsPhi, SomePhi, Shaped, HasOperands;
    forall i | 0 <= i < |phis| ensures phis[i].dst in keys && forall a | a in phis[i].args :: a in keys {
      assert HasPhi(keys, phis[i]);
    }
  }

  lemma LargestNumber(rpos: seq<int>, t: seq<int>) returns (limit: int)
    requires |t| == |rpos|
    ensures forall x | In(t, x) :: rpos[x] <= limit
  {
    limit := 0;
    for i := 0 to |t|
      invariant forall x | 0 <= x < i :: rpos[x] <= limit
    {
      if rpos[i] > limit { limit := rpos[i]; }
    }
  }

  /** The live ranges of a vreg start out with its value. */
  ghost predicate StartsAlike(r: Ranges, env: Env, env': Env) {
    forall v: nat, x | r.Knows(v, x) :: Read(env', r.Of(v, x)) == Read(env, v)
  }

  /** After any number of steps both programs are at the same instruction of the same block, having done the same. */
  ghost predicate SameMeaning(p: Program, q: Program, r: Ranges)
    requires p.Valid() && q.Valid()
  {
    forall sem, env, env', n | StartsAlike(r, env, env') ::
      var a, c := Run(p, sem, env, n), Run(q, sem, env', n);
      a.block == c.block && a.index == c.index && a.history == c.history
  }

  lemma ReadyMeansSame(f: Func, s: Renaming, rpos: seq<int>, t: seq<int>, r: Ranges, q: Program)
    requires Ready(f, s, rpos, t, r, q) && f.p.Valid() && q.Valid()
    ensures SameMeaning(f.p, q, r)
  {
    hide Cfg.Valid, Renamed, DominatorTree, PhisPlaced, Grouped, OutOfSsa, Run;
    ReadyAligns(f, s, rpos, t, r, q);
    forall sem, env, env', n: nat | StartsAlike(r, env, env')
      ensures var a, c := Run(f.p, sem, env, n), Run(q, sem, env', n);
        a.block == c.block && a.index == c.index && a.history == c.history
    {
      UsesReadLastDefinition(f, s, rpos, t, r, q, sem, env, env', n);
    }
  }

  /** Into SSA form and out of it again: the new program, on live ranges above `offset`, means the same. */
  method RoundTrip(p: Program, offset: nat)
    returns (q: Program, r: Ranges, ghost f: Func, ghost s: Renaming, ghost rpos: seq<int>, ghost t: seq<int>)
    requires p.Valid() && PredecessorFree(p.g, 0)
    ensures f.p == p && Ready(f, s, rpos, t, r, q) && q.Valid() && SameMeaning(p, q, r)
    ensures forall v: nat, x | r.Knows(v, x) :: r.Of(v, x) > offset
  {
    hide Cfg.Valid, Anc, PhisPlaced, Vregs, Renamed, SameMeaning, Grouped, OutOfSsa;
    var func, idoms, count;
    func, idoms, count, rpos := IntoSsa(p);
    f := func;
    t := idoms[..][0 := 0];
    assert idoms[..] == t[0 := -1];
    ghost var limit := LargestNumber(rpos, t);
    var renamer := RenamePhiFunctionVariables(func, idoms[..], count, rpos, t, limit);
    s := renamer.State();
    RenamedIsShaped(f, s, rpos, t);
    q, r := OutOf(func, renamer, count, offset);
    ReadyMeansSame(f, s, rpos, t, r, q);
  }

  lemma RenamedIsShaped(f: Func, s: Renaming, rpos: seq<int>, t: seq<int>)
    requires Renamed(f, s, rpos, t)
    ensures Shaped(f, s)
  {
  }
}
