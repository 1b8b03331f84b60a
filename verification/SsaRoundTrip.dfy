/** SSA form and back preserves meaning (ssa.c:774-1227). */
module SsaRoundTrip {
  import opened Cfgs
  import opened Dominance
  import opened DomTree
  import opened Idom
  import opened Frontiers
  import opened Ir
  import opened SsaNames
  import opened RenameState
  import opened RenameBlock
  import opened RenameTree
  import opened Rename
  import opened LocalUse
  import opened Basics

  // Globals and phi placement

  /** Wherever a global is defined, by an instruction or a phi function, it has phi functions at the frontier. */
  ghost predicate PhisPlaced(f: Func) {
    forall v: nat, b: nat, d: nat | v != 0 && b < |f.phis| && b < |f.p.code| && d < |f.phis| && IsGlobal(f.p, v) &&
        (Writes(f.p, b, v) || v in f.phis[b]) && InFrontier(f.p.g, d, b) :: v in f.phis[d]
  }

  // Definitions and names

  lemma {:induction false} PhiDefsEmpty(f: Func, n: Names, b: nat, k: nat, v: nat)
    requires Fits(f, n) && b < |f.phis| && k <= |f.phis[b]| && v !in f.phis[b]
    ensures PhiDefs(f, n, b, k, v) == []
  {
    if k > 0 { PhiDefsEmpty(f, n, b, k - 1, v); }
  }

  /** The last phi definition of `v` is that of one of its phi functions. */
  lemma {:induction false} PhiDefsLast(f: Func, n: Names, b: nat, k: nat, v: nat) returns (j: nat)
    requires Fits(f, n) && b < |f.phis| && k <= |f.phis[b]| && v in f.phis[b][..k]
    ensures PhiDefs(f, n, b, k, v) != [] && j < k && f.phis[b][j] == v
    ensures Last(PhiDefs(f, n, b, k, v)) == Some(n.phi[b][j])
  {
    hide Cfg.Valid;
    if f.phis[b][k - 1] == v {
      j := k - 1;
    } else {
      assert f.phis[b][..k] == f.phis[b][..k - 1] + [f.phis[b][k - 1]];
      j := PhiDefsLast(f, n, b, k - 1, v);
      assert PhiDefs(f, n, b, k - 1, v) + [] == PhiDefs(f, n, b, k - 1, v);
    }
  }

  lemma {:induction false} DefsEmpty(f: Func, n: Names, b: nat, i: nat, v: nat)
    requires Fits(f, n) && b < |f.phis| && i <= f.Len(b) && v != 0
    requires v !in f.phis[b] && !DefinedBefore(f.p, b, i, v)
    ensures Defs(f, n, b, i, v) == []
  {
    if i == 0 {
      PhiDefsEmpty(f, n, b, |f.phis[b]|, v);
    } else {
      DefinedBeforeNext(f.p, b, i - 1, v);
      DefsEmpty(f, n, b, i - 1, v);
    }
  }

  /** Going up from `y` to the immediate dominator of `d` meets no definition of a global that has no phi function at
      `d`. */
  lemma {:induction false} NoDefsOnTheWay(f: Func, n: Names, rpos: seq<int>, t: seq<int>, b: nat, d: nat, y: int,
                                          v: nat)
    requires Fits(f, n) && TreeFor(f, rpos, t) && DominatorTree(f.p.g, rpos, t) && PhisPlaced(f)
    requires f.p.g.Edge(b, d) && In(t, b) && In(t, d) && d != 0 && v != 0 && IsGlobal(f.p, v) && v !in f.phis[d]
    requires In(t, y) && Anc(rpos, t, y, b) && Anc(rpos, t, t[d], y)
    ensures Reach(f, n, rpos, t, y, f.Len(y), v) == Reach(f, n, rpos, t, t[d], f.Len(t[d]), v)
    decreases rpos[y]
  {
    hide Cfg.Valid, IsGlobal, DefinedBefore, Defs, Dominates, Reachable;
    if y != t[d] {
      FrontierOnChain(f.p.g, rpos, t, b, d, y);
      DefsEmpty(f, n, y, f.Len(y), v);
      AncTrans(rpos, t, t[y], y, b) by { assert Anc(rpos, t, t[y], y); }
      ReachUnfold(f, n, rpos, t, y, f.Len(y), v);
      NoDefsOnTheWay(f, n, rpos, t, b, d, t[y], v);
    }
  }

  lemma FrontierOnChain(g: Cfg, rpos: seq<int>, t: seq<int>, b: nat, d: nat, y: int)
    requires g.Valid() && DominatorTree(g, rpos, t) && g.Edge(b, d) && In(t, b) && In(t, d) && d != 0
    requires In(t, y) && Anc(rpos, t, y, b) && Anc(rpos, t, t[d], y) && y != t[d]
    ensures InFrontier(g, d, y)
  {
    BelowLink(g, rpos, t, d, b, y);
    if Anc(rpos, t, y, t[d]) {
      AncRank(rpos, t, y, t[d]);
      AncRank(rpos, t, t[d], y);
    }
    assert FrontierVia(g, d, y, b);
  }

  // Live ranges in place of names

  /** The number of a name, as LR_HASH computes it. */
  function Key(count: nat, v: nat, sub: int): int {
    sub * (count + 1) + v
  }

  lemma KeyInjective(count: nat, v: nat, x: int, w: nat, y: int)
    requires v <= count && w <= count && Key(count, v, x) == Key(count, w, y)
    ensures v == w && x == y
  {
    if x < y {
      assert (y - x) * (count + 1) >= count + 1 by { assert y - x >= 1; MulMonotone(1, y - x, count + 1); }
    } else if y < x {
      assert (x - y) * (count + 1) >= count + 1 by { assert x - y >= 1; MulMonotone(1, x - y, count + 1); }
    }
  }

  datatype Ranges = Ranges(lr: map<int, nat>, count: nat) {
    function Of(v: nat, x: int): nat {
      if v == 0 || Key(count, v, x) !in lr then 0 else lr[Key(count, v, x)]
    }

    ghost predicate Knows(v: nat, x: int) {
      0 < v <= count && Key(count, v, x) in lr && lr[Key(count, v, x)] > 0
    }
  }

  /** Every name has a live range, phi functions join theirs, and the names of a live range share one vreg. */
  ghost predicate Grouped(f: Func, s: Renaming, r: Ranges)
    requires Shaped(f, s)
  {
    && (forall b, i | 0 <= b < |f.p.code| && 0 <= i < |f.p.code[b]| ::
          KnowsOperands(r, f.p.code[b][i], s.names.code[b][i]))
    && (forall d, k, j | 0 <= d < |f.phis| && 0 <= k < |f.phis[d]| && 0 <= j < |s.args[d][k]| ::
          Joined(r, f.phis[d][k], s.names.phi[d][k], s.args[d][k][j]))
    && OneVreg(r)
  }

  ghost predicate OneVreg(r: Ranges) {
    forall v: nat, x, w: nat, y | r.Knows(v, x) && r.Knows(w, y) && r.Of(v, x) == r.Of(w, y) :: v == w
  }

  ghost predicate KnowsOperands(r: Ranges, i: Instr, u: Subs) {
    && (i.dst != 0 ==> r.Knows(i.dst, u.dst))
    && (i.src1 != 0 ==> r.Knows(i.src1, u.src1))
    && (i.src2 != 0 ==> r.Knows(i.src2, u.src2))
  }

  ghost predicate Joined(r: Ranges, v: nat, x: int, y: int) {
    r.Knows(v, x) && r.Knows(v, y) && r.Of(v, x) == r.Of(v, y)
  }

  /** An instruction with live ranges for vregs. */
  function WithRanges(r: Ranges, i: Instr, u: Subs): Instr {
    i.(dst := r.Of(i.dst, u.dst), src1 := r.Of(i.src1, u.src1), src2 := r.Of(i.src2, u.src2))
  }

  /** `q` is the program with every name replaced by its live range, and without phi functions. */
  ghost predicate OutOfSsa(f: Func, s: Renaming, r: Ranges, q: Program)
    requires Shaped(f, s)
  {
    && q.g == f.p.g && |q.code| == |f.p.code|
    && forall b | 0 <= b < |q.code| :: |q.code[b]| == |f.p.code[b]| &&
         forall i | 0 <= i < |q.code[b]| :: q.code[b][i] == WithRanges(r, f.p.code[b][i], s.names.code[b][i])
  }

  /** What the passes up to live range construction have established. */
  ghost predicate Ready(f: Func, s: Renaming, rpos: seq<int>, t: seq<int>, r: Ranges, q: Program) {
    && Renamed(f, s, rpos, t) && DominatorTree(f.p.g, rpos, t) && PredecessorFree(f.p.g, 0)
    && PhisPlaced(f) && Grouped(f, s, r) && OutOfSsa(f, s, r, q) && q.Valid()
  }

  // The two runs

  /** For every vreg defined so far in the run, the live range that its last definition wrote. */
  ghost function LastWritten(p: Program, q: Program, sem: Semantics, env: Env, n: nat): map<nat, nat>
    requires p.Valid() && CodeAligned(p, q)
  {
    if n == 0 then map[] else LastAfter(p, q, Run(p, sem, env, n - 1), LastWritten(p, q, sem, env, n - 1))
  }

  /** The name that reaches this point belongs to the live range last written for `v`. */
  ghost predicate NameMatches(f: Func, s: Renaming, rpos: seq<int>, t: seq<int>, r: Ranges, b: nat, i: nat, v: nat,
                              range: nat)
    requires Shaped(f, s) && TreeFor(f, rpos, t) && In(t, b) && i <= f.Len(b) && v != 0
  {
    match Reach(f, s.names, rpos, t, b, i, v)
    case Some(x) => r.Knows(v, x) && r.Of(v, x) == range
    case None => false
  }

  /** Names match for vregs that are global or have been defined in the block. */
  ghost predicate NamesMatch(f: Func, s: Renaming, rpos: seq<int>, t: seq<int>, r: Ranges, b: nat, i: nat,
                             last: map<nat, nat>)
    requires Shaped(f, s) && TreeFor(f, rpos, t) && In(t, b) && i <= f.Len(b)
  {
    forall v: nat | v != 0 && v in last && (IsGlobal(f.p, v) || DefinedBefore(f.p, b, i, v)) ::
      NameMatches(f, s, rpos, t, r, b, i, v, last[v])
  }

  ghost predicate IsRangeOf(r: Ranges, v: nat, range: nat) {
    exists x :: r.Knows(v, x) && r.Of(v, x) == range
  }

  /** A vreg defined in the run has its value in the live range last written. */
  ghost predicate DefinedMatch(r: Ranges, e: Env, e': Env, last: map<nat, nat>) {
    forall v: nat | v in last :: v != 0 && IsRangeOf(r, v, last[v]) && Read(e', last[v]) == Read(e, v)
  }

  /** Any other vreg still has its initial value, in all its live ranges. */
  ghost predicate UndefinedMatch(r: Ranges, env0: Env, e: Env, e': Env, last: map<nat, nat>) {
    && (forall v: nat | v !in last :: Read(e, v) == Read(env0, v))
    && (forall v: nat, x | v !in last && r.Knows(v, x) :: Read(e', r.Of(v, x)) == Read(env0, v))
  }

  ghost predicate ValuesMatch(r: Ranges, env0: Env, e: Env, e': Env, last: map<nat, nat>) {
    DefinedMatch(r, e, e', last) && UndefinedMatch(r, env0, e, e', last)
  }

  // Operands

  /** The use of `v` at instruction `i` of `b` reads in the new program what it reads in the old one. */
  lemma OperandReads(f: Func, s: Renaming, rpos: seq<int>, t: seq<int>, r: Ranges, env0: Env, e: Env, e': Env,
                     last: map<nat, nat>, b: nat, i: nat, v: nat, sub: int)
    requires Renamed(f, s, rpos, t) && In(t, b) && i < f.Len(b) && v < |s.bottom|
    requires v == 0 || (Uses(f.p.code[b][i], v) && UseOk(f, s, rpos, t, b, i, v, sub) && r.Knows(v, sub))
    requires ValuesMatch(r, env0, e, e', last) && NamesMatch(f, s, rpos, t, r, b, i, last)
    ensures Read(e', r.Of(v, sub)) == Read(e, v)
  {
    hide Cfg.Valid, AllArgsOk, Finished, Vregs, BottomOk, Reach, DefinedBefore, Fits;
    if v != 0 && v in last {
      if !DefinedBefore(f.p, b, i, v) {
        assert Exposed(f.p, b, v);
        assert IsGlobal(f.p, v);
      }
      assert NameMatches(f, s, rpos, t, r, b, i, v, last[v]);
    }
  }

  lemma SourcesRead(f: Func, s: Renaming, rpos: seq<int>, t: seq<int>, r: Ranges, q: Program, env0: Env, e: Env,
                    e': Env, last: map<nat, nat>, b: nat, i: nat)
    requires Ready(f, s, rpos, t, r, q) && In(t, b) && i < f.Len(b)
    requires ValuesMatch(r, env0, e, e', last) && NamesMatch(f, s, rpos, t, r, b, i, last)
    ensures Read(e', q.code[b][i].src1) == Read(e, f.p.code[b][i].src1)
    ensures Read(e', q.code[b][i].src2) == Read(e, f.p.code[b][i].src2)
  {
    hide Cfg.Valid, AllArgsOk, BottomOk, DefinedBefore, ValuesMatch, NamesMatch, NameAt, SitesOk, EdgesFilled;
    hide PhisPlaced, DominatorTree;
    assert Finished(f, s, rpos, t, b);
    assert KnowsOperands(r, f.p.code[b][i], s.names.code[b][i]);
    OperandReads(f, s, rpos, t, r, env0, e, e', last, b, i, f.p.code[b][i].src1, s.names.code[b][i].src1);
    OperandReads(f, s, rpos, t, r, env0, e, e', last, b, i, f.p.code[b][i].src2, s.names.code[b][i].src2);
    assert q.code[b][i] == WithRanges(r, f.p.code[b][i], s.names.code[b][i]);
  }

  // Definitions

  /** Writing a definition and its live range keeps the values matched. */
  lemma WriteKeepsValues(r: Ranges, env0: Env, e: Env, e': Env, last: map<nat, nat>, v: nat, x: int, val: int)
    requires ValuesMatch(r, env0, e, e', last) && v != 0 && r.Knows(v, x) && OneVreg(r)
    ensures ValuesMatch(r, env0, Write(e, v, val), Write(e', r.Of(v, x), val), last[v := r.Of(v, x)])
  {
    WriteKeepsDefined(r, e, e', last, v, x, val);
    var f' := Write(e', r.Of(v, x), val);
    forall w: nat, y | w !in last && w != v && r.Knows(w, y) ensures Read(f', r.Of(w, y)) == Read(env0, w) {
      assert r.Of(w, y) != r.Of(v, x);
    }
  }

  lemma WriteKeepsDefined(r: Ranges, e: Env, e': Env, last: map<nat, nat>, v: nat, x: int, val: int)
    requires DefinedMatch(r, e, e', last) && v != 0 && r.Knows(v, x) && OneVreg(r)
    ensures DefinedMatch(r, Write(e, v, val), Write(e', r.Of(v, x), val), last[v := r.Of(v, x)])
  {
    var now := last[v := r.Of(v, x)];
    forall w: nat | w in now
      ensures w != 0 && IsRangeOf(r, w, now[w]) && Read(Write(e', r.Of(v, x), val), now[w]) == Read(Write(e, v, val), w)
    {
      if w != v {
        assert IsRangeOf(r, w, last[w]);
        var y :| r.Knows(w, y) && r.Of(w, y) == last[w];
        assert r.Of(w, y) != r.Of(v, x);
      }
    }
  }

  /** Within a block, the names matched so far stay, and a new definition matches its live range. */
  lemma WriteKeepsNames(f: Func, s: Renaming, rpos: seq<int>, t: seq<int>, r: Ranges, b: nat, i: nat,
                        last: map<nat, nat>, now: map<nat, nat>)
    requires Shaped(f, s) && TreeFor(f, rpos, t) && In(t, b) && i < f.Len(b) && NamesMatch(f, s, rpos, t, r, b, i, last)
    requires var v, x := f.p.code[b][i].dst, s.names.code[b][i].dst;
      if v == 0 then now == last else r.Knows(v, x) && now == last[v := r.Of(v, x)]
    ensures NamesMatch(f, s, rpos, t, r, b, i + 1, now)
  {
    hide Cfg.Valid, Vregs, IsGlobal, DefinedBefore, Entering;
    var v, x := f.p.code[b][i].dst, s.names.code[b][i].dst;
    forall w: nat | w != 0 && w in now && (IsGlobal(f.p, w) || DefinedBefore(f.p, b, i + 1, w))
      ensures NameMatches(f, s, rpos, t, r, b, i + 1, w, now[w])
    {
      ReachUnfold(f, s.names, rpos, t, b, i + 1, w);
      ReachUnfold(f, s.names, rpos, t, b, i, w);
      DefinedBeforeNext(f.p, b, i, w);
      if w != v {
        assert Defs(f, s.names, b, i + 1, w) == Defs(f, s.names, b, i, w) + [];
        assert NameMatches(f, s, rpos, t, r, b, i, w, last[w]);
      }
    }
  }

  // Edges

  /** Where `d` has a phi function for `v`, the phi's name is in the live range of the name at the end of the
      predecessor. */
  lemma PhiMatches(f: Func, s: Renaming, rpos: seq<int>, t: seq<int>, r: Ranges, b: nat, d: nat, v: nat, range: nat)
    requires Renamed(f, s, rpos, t) && Grouped(f, s, r) && In(t, b) && In(t, d) && f.p.g.Edge(b, d)
    requires v != 0 && v in f.phis[d] && NameMatches(f, s, rpos, t, r, b, f.Len(b), v, range)
    ensures NameMatches(f, s, rpos, t, r, d, 0, v, range)
  {
    hide BlockOk, BottomOk, Entering, Vregs, Cfg.Valid, ArgsOk, SlotsOk;
    assert f.phis[d][..|f.phis[d]|] == f.phis[d];
    var k := PhiDefsLast(f, s.names, d, |f.phis[d]|, v);
    ReachUnfold(f, s.names, rpos, t, d, 0, v);
    assert Reach(f, s.names, rpos, t, d, 0, v) == Some(s.names.phi[d][k]);
    var j := SlotOfEdge(f, s, rpos, t, b, d, k);
    assert Joined(r, f.phis[d][k], s.names.phi[d][k], s.args[d][k][j]);
  }

  /** The edge from `b` to `d` has filled a slot of each phi function of `d` with the name at the end of `b`. */
  lemma SlotOfEdge(f: Func, s: Renaming, rpos: seq<int>, t: seq<int>, b: nat, d: nat, k: nat) returns (j: nat)
    requires Renamed(f, s, rpos, t) && In(t, b) && f.p.g.Edge(b, d) && d < |f.phis| && k < |f.phis[d]|
    ensures 0 < f.phis[d][k] < |s.bottom| && j < |s.args[d][k]|
    ensures s.args[d][k][j] == NameAt(f, s.names, rpos, t, s.bottom, b, f.Len(b), f.phis[d][k])
  {
    hide BlockOk, BottomOk, NameAt, Reach;
    assert Finished(f, s, rpos, t, b);
    assert d in multiset(f.p.g.succ[b]);
    assert b in multiset(s.sources[d]);
    assert ArgsOk(f, s, rpos, t, d);
    j :| 0 <= j < |s.sources[d]| && s.sources[d][j] == b;
    assert SlotsOk(f, s, rpos, t, d, f.phis[d][k], s.args[d][k], s.sources[d]);
  }

  lemma EntryHasNoPreds(g: Cfg, b: nat)
    requires g.Valid() && PredecessorFree(g, 0)
    ensures !g.Edge(b, 0)
  {
    if g.Edge(b, 0) { g.EdgeBothWays(b, 0); }
  }

  /** Where `d` has no phi function for a global `v`, the same name reaches it from every predecessor. */
  lemma NoPhiMatches(f: Func, s: Renaming, rpos: seq<int>, t: seq<int>, r: Ranges, q: Program, b: nat, d: nat, v: nat,
                     range: nat)
    requires Ready(f, s, rpos, t, r, q) && In(t, b) && In(t, d) && f.p.g.Edge(b, d)
    requires v != 0 && v !in f.phis[d] && IsGlobal(f.p, v) && NameMatches(f, s, rpos, t, r, b, f.Len(b), v, range)
    ensures NameMatches(f, s, rpos, t, r, d, 0, v, range)
  {
    hide AllArgsOk, Finished, BottomOk, IsGlobal, Grouped, OutOfSsa, Dominates, Reachable, Vregs;
    EntryHasNoPreds(f.p.g, b);
    BelowLink(f.p.g, rpos, t, d, b, b) by { assert Anc(rpos, t, b, b); }
    assert Anc(rpos, t, b, b);
    NoDefsOnTheWay(f, s.names, rpos, t, b, d, b, v);
    PhiDefsEmpty(f, s.names, d, |f.phis[d]|, v);
    ReachUnfold(f, s.names, rpos, t, d, 0, v);
  }

  lemma EdgeKeepsNames(f: Func, s: Renaming, rpos: seq<int>, t: seq<int>, r: Ranges, q: Program, b: nat, d: nat,
                       last: map<nat, nat>)
    requires Ready(f, s, rpos, t, r, q) && In(t, b) && In(t, d) && f.p.g.Edge(b, d)
    requires NamesMatch(f, s, rpos, t, r, b, f.Len(b), last)
    ensures NamesMatch(f, s, rpos, t, r, d, 0, last)
  {
    hide AllArgsOk, Finished, BottomOk, IsGlobal, Grouped, OutOfSsa, Dominates, Reachable, Vregs, Reach, DominatorTree;
    hide PhisPlaced;
    forall v: nat | v != 0 && v in last && (IsGlobal(f.p, v) || DefinedBefore(f.p, d, 0, v))
      ensures NameMatches(f, s, rpos, t, r, d, 0, v, last[v])
    {
      assert NameMatches(f, s, rpos, t, r, b, f.Len(b), v, last[v]);
      if v in f.phis[d] {
        PhiMatches(f, s, rpos, t, r, b, d, v, last[v]);
      } else {
        NoPhiMatches(f, s, rpos, t, r, q, b, d, v, last[v]);
      }
    }
  }

  // Whole runs

  ghost predicate CodeAligned(p: Program, q: Program) {
    |q.code| == |p.code| && forall b | 0 <= b < |q.code| :: |q.code[b]| == |p.code[b]|
  }

  /** `last` after the program has taken a step from state `a`. */
  ghost function LastAfter(p: Program, q: Program, a: State, last: map<nat, nat>): map<nat, nat>
    requires CodeAligned(p, q)
  {
    if a.block < |p.code| && a.index < |p.code[a.block]| && p.code[a.block][a.index].dst != 0
    then last[p.code[a.block][a.index].dst := q.code[a.block][a.index].dst]
    else last
  }

  /** Both programs are at the same place with the same history, and matching names and values. */
  ghost predicate Aligned(f: Func, s: Renaming, rpos: seq<int>, t: seq<int>, r: Ranges, env0: Env, a: State, c: State,
                          last: map<nat, nat>)
    requires Shaped(f, s) && TreeFor(f, rpos, t)
  {
    && a.block == c.block && a.index == c.index && a.history == c.history
    && In(t, a.block) && a.index <= f.Len(a.block)
    && ValuesMatch(r, env0, a.env, c.env, last) && NamesMatch(f, s, rpos, t, r, a.block, a.index, last)
  }

  lemma ReadyAligns(f: Func, s: Renaming, rpos: seq<int>, t: seq<int>, r: Ranges, q: Program)
    requires Ready(f, s, rpos, t, r, q)
    ensures CodeAligned(f.p, q) && f.p.Valid() && q.Valid() && q.g == f.p.g
  {
    hide Cfg.Valid, Renamed, DominatorTree, PhisPlaced, Grouped;
  }

  lemma InstructionStep(f: Func, s: Renaming, rpos: seq<int>, t: seq<int>, r: Ranges, q: Program, sem: Semantics,
                        env0: Env, a: State, c: State, last: map<nat, nat>)
    requires Ready(f, s, rpos, t, r, q) && Aligned(f, s, rpos, t, r, env0, a, c, last) && a.index < f.Len(a.block)
    requires CodeAligned(f.p, q) && f.p.Valid() && q.Valid()
    ensures Aligned(f, s, rpos, t, r, env0, Step(f.p, sem, a), Step(q, sem, c), LastAfter(f.p, q, a, last))
  {
    hide Cfg.Valid, AllArgsOk, Finished, BottomOk, DominatorTree, PhisPlaced, ValuesMatch, NamesMatch;
    var b, i := a.block, a.index;
    var o, x := f.p.code[b][i], s.names.code[b][i];
    assert q.code[b][i] == WithRanges(r, o, x);
    assert KnowsOperands(r, o, x);
    SourcesRead(f, s, rpos, t, r, q, env0, a.env, c.env, last, b, i);
    SameCopy(f, s, rpos, t, r, q, b, i);
    WriteKeepsNames(f, s, rpos, t, r, b, i, last, LastAfter(f.p, q, a, last));
    if o.dst != 0 {
      var value := Value(sem, a.history, o, Read(a.env, o.src1), Read(a.env, o.src2));
      WriteKeepsValues(r, env0, a.env, c.env, last, o.dst, x.dst, value);
    }
  }

  lemma SameCopy(f: Func, s: Renaming, rpos: seq<int>, t: seq<int>, r: Ranges, q: Program, b: nat, i: nat)
    requires Ready(f, s, rpos, t, r, q) && b < |f.phis| && i < f.Len(b)
    ensures q.code[b][i].op == f.p.code[b][i].op && q.code[b][i].imm == f.p.code[b][i].imm
    ensures q.code[b][i].src1 == 0 <==> f.p.code[b][i].src1 == 0
    ensures q.code[b][i].dst == 0 <==> f.p.code[b][i].dst == 0
  {
    hide Cfg.Valid, AllArgsOk, Finished, BottomOk, DominatorTree, PhisPlaced;
    assert q.code[b][i] == WithRanges(r, f.p.code[b][i], s.names.code[b][i]);
    assert KnowsOperands(r, f.p.code[b][i], s.names.code[b][i]);
  }

  lemma JumpStep(f: Func, s: Renaming, rpos: seq<int>, t: seq<int>, r: Ranges, q: Program, sem: Semantics, env0: Env,
                 a: State, c: State, last: map<nat, nat>)
    requires Ready(f, s, rpos, t, r, q) && Aligned(f, s, rpos, t, r, env0, a, c, last) && a.index == f.Len(a.block)
    requires CodeAligned(f.p, q) && f.p.Valid() && q.Valid()
    ensures Aligned(f, s, rpos, t, r, env0, Step(f.p, sem, a), Step(q, sem, c), LastAfter(f.p, q, a, last))
  {
    hide Cfg.Valid, Renamed, PhisPlaced, ValuesMatch, NamesMatch, Grouped, Anc, Dominates;
    if f.p.g.succ[a.block] != [] {
      var d := NextBlock(f.p.g, sem, a.history, a.block);
      NextIsEdge(f.p, sem, a.history, a.block);
      ReachableStep(f.p.g, a.block, d);
      EdgeKeepsNames(f, s, rpos, t, r, q, a.block, d, last);
    }
  }

  /** The two programs run in step, block by block and instruction by instruction, for ever. */
  lemma {:induction false} RunsAlign(f: Func, s: Renaming, rpos: seq<int>, t: seq<int>, r: Ranges, q: Program,
                                     sem: Semantics, env: Env, env': Env, n: nat)
    requires Ready(f, s, rpos, t, r, q) && CodeAligned(f.p, q) && f.p.Valid() && q.Valid()
    requires forall v: nat, x | r.Knows(v, x) :: Read(env', r.Of(v, x)) == Read(env, v)
    ensures Aligned(f, s, rpos, t, r, env, Run(f.p, sem, env, n), Run(q, sem, env', n), LastWritten(f.p, q, sem,
        env, n))
  {
    hide Cfg.Valid, Renamed, PhisPlaced, Grouped, Ready, Aligned, DominatorTree, Step;
    if n == 0 {
      StartAligned(f, s, rpos, t, r, q, env, env');
    } else {
      RunsAlign(f, s, rpos, t, r, q, sem, env, env', n - 1);
      var a, c, last := Run(f.p, sem, env, n - 1), Run(q, sem, env', n - 1), LastWritten(f.p, q, sem, env, n - 1);
      StepAligned(f, s, rpos, t, r, q, sem, env, a, c, last);
    }
  }

  lemma StartAligned(f: Func, s: Renaming, rpos: seq<int>, t: seq<int>, r: Ranges, q: Program, env: Env, env': Env)
    requires Ready(f, s, rpos, t, r, q)
    requires forall v: nat, x | r.Knows(v, x) :: Read(env', r.Of(v, x)) == Read(env, v)
    ensures Aligned(f, s, rpos, t, r, env, State(0, 0, env, []), State(0, 0, env', []), map[])
  {
    hide Cfg.Valid, DominatorTree, PhisPlaced, Grouped, AllArgsOk, Finished, BottomOk;
  }

  lemma StepAligned(f: Func, s: Renaming, rpos: seq<int>, t: seq<int>, r: Ranges, q: Program, sem: Semantics, env0: Env,
                    a: State, c: State, last: map<nat, nat>)
    requires Ready(f, s, rpos, t, r, q) && Aligned(f, s, rpos, t, r, env0, a, c, last)
    requires CodeAligned(f.p, q) && f.p.Valid() && q.Valid()
    ensures Aligned(f, s, rpos, t, r, env0, Step(f.p, sem, a), Step(q, sem, c), LastAfter(f.p, q, a, last))
  {
    hide Cfg.Valid, AllArgsOk, Finished, BottomOk, DominatorTree, PhisPlaced, ValuesMatch, NamesMatch, Grouped, Step;
    if a.index < f.Len(a.block) {
      InstructionStep(f, s, rpos, t, r, q, sem, env0, a, c, last);
    } else {
      JumpStep(f, s, rpos, t, r, q, sem, env0, a, c, last);
    }
  }

  /** Wherever the run is, the new program is at the same place with the same history, and each use of a live range
      reads what the last definition of the original vreg wrote, in the live range that this definition wrote; a use
      before any definition reads the initial value. */
  lemma UsesReadLastDefinition(f: Func, s: Renaming, rpos: seq<int>, t: seq<int>, r: Ranges, q: Program, sem: Semantics,
                               env: Env, env': Env, n: nat)
    requires Ready(f, s, rpos, t, r, q) && CodeAligned(f.p, q) && f.p.Valid() && q.Valid()
    requires forall v: nat, x | r.Knows(v, x) :: Read(env', r.Of(v, x)) == Read(env, v)
    ensures var a, c, last := Run(f.p, sem, env, n), Run(q, sem, env', n), LastWritten(f.p, q, sem, env, n);
      && a.block == c.block < |f.p.code| && a.index == c.index <= f.Len(a.block) && a.history == c.history
      && (a.index < f.Len(a.block) ==>
            && ReadsLast(last, env, a.env, c.env, f.p.code[a.block][a.index].src1, q.code[a.block][a.index].src1)
            && ReadsLast(last, env, a.env, c.env, f.p.code[a.block][a.index].src2, q.code[a.block][a.index].src2))
  {
    hide Cfg.Valid, AllArgsOk, Finished, BottomOk, PhisPlaced, Grouped, DominatorTree, Run, LastWritten, NamesMatch;
    RunsAlign(f, s, rpos, t, r, q, sem, env, env', n);
    var a, c, last := Run(f.p, sem, env, n), Run(q, sem, env', n), LastWritten(f.p, q, sem, env, n);
    if a.index < f.Len(a.block) {
      SourcesRead(f, s, rpos, t, r, q, env, a.env, c.env, last, a.block, a.index);
      SourcesReadLast(f, s, rpos, t, r, q, last, a.block, a.index);
    }
  }

  /** The use of `v` has become a use of `range`. */
  ghost predicate ReadsLast(last: map<nat, nat>, env: Env, e: Env, e': Env, v: nat, range: nat) {
    && Read(e', range) == Read(e, v)
    && (v in last ==> range == last[v])
    && (v !in last && v != 0 ==> Read(e', range) == Read(env, v))
  }

  /** The operands of an instruction whose vregs have been defined belong to the live ranges last written. */
  lemma SourcesReadLast(f: Func, s: Renaming, rpos: seq<int>, t: seq<int>, r: Ranges, q: Program, last: map<nat, nat>,
                        b: nat, i: nat)
    requires Ready(f, s, rpos, t, r, q) && In(t, b) && i < f.Len(b) && NamesMatch(f, s, rpos, t, r, b, i, last)
    requires 0 !in last
    ensures f.p.code[b][i].src1 in last ==> q.code[b][i].src1 == last[f.p.code[b][i].src1]
    ensures f.p.code[b][i].src2 in last ==> q.code[b][i].src2 == last[f.p.code[b][i].src2]
  {
    hide Cfg.Valid, AllArgsOk, BottomOk, DefinedBefore, NamesMatch, SitesOk, EdgesFilled, PhisPlaced, DominatorTree;
    hide NameAt;
    assert Finished(f, s, rpos, t, b);
    assert KnowsOperands(r, f.p.code[b][i], s.names.code[b][i]);
    assert q.code[b][i] == WithRanges(r, f.p.code[b][i], s.names.code[b][i]);
    var o, x := f.p.code[b][i], s.names.code[b][i];
    if o.src1 in last { OperandIsLast(f, s, rpos, t, r, last, b, i, o.src1, x.src1); }
    if o.src2 in last { OperandIsLast(f, s, rpos, t, r, last, b, i, o.src2, x.src2); }
  }

  lemma OperandIsLast(f: Func, s: Renaming, rpos: seq<int>, t: seq<int>, r: Ranges, last: map<nat, nat>, b: nat,
                      i: nat, v: nat, sub: int)
    requires Renamed(f, s, rpos, t) && In(t, b) && i < f.Len(b) && 0 < v < |s.bottom|
    requires Uses(f.p.code[b][i], v) && UseOk(f, s, rpos, t, b, i, v, sub)
    requires NamesMatch(f, s, rpos, t, r, b, i, last) && v in last
    ensures r.Of(v, sub) == last[v]
  {
    hide Cfg.Valid, AllArgsOk, Finished, Vregs, BottomOk, Reach, DefinedBefore, Fits;
    if !DefinedBefore(f.p, b, i, v) {
      assert Exposed(f.p, b, v);
      assert IsGlobal(f.p, v);
    }
    assert NameMatches(f, s, rpos, t, r, b, i, v, last[v]);
  }
}
