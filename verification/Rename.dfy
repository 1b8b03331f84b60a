/** Renaming into SSA form (rename_phi_function_variables and rename_vars, ssa.c:868-1030). */
module Rename {
  import opened Cfgs
  import opened DomTree
  import opened Ir
  import opened SsaNames
  import opened RenameState
  import opened RenameBlock
  import opened RenameEdges
  import opened RenameTree

  /** Nothing named, pushed or filled yet. */
  ghost predicate Fresh(f: Func, s: Renaming) {
    && Shaped(f, s)
    && (forall v | 0 <= v < |s.stacks| :: s.stacks[v] == [] && s.bottom[v] == -1 && s.issued[v] == [])
    && (forall d | 0 <= d < |s.sources| :: s.sources[d] == [])
    && (forall d, k, j | 0 <= d < |s.args| && 0 <= k < |s.args[d]| && 0 <= j < |s.args[d][k]| :: s.args[d][k][j] == -1)
  }

  lemma FreshIsReady(f: Func, s: Renaming, rpos: seq<int>, t: seq<int>)
    requires Fresh(f, s) && TreeFor(f, rpos, t)
    ensures Before(f, s, rpos, t, 0)
  {
    hide Cfg.Valid;
  }

  /** A renamed function: every reachable block is named, its edges have filled their slots, and all slots are right. */
  ghost predicate Renamed(f: Func, s: Renaming, rpos: seq<int>, t: seq<int>) {
    && Shaped(f, s) && TreeFor(f, rpos, t) && BottomOk(s) && AllArgsOk(f, s, rpos, t)
    && forall x: nat | In(t, x) :: Finished(f, s, rpos, t, x)
  }

  lemma AllUnderZero(f: Func, s: Renaming, u: Renaming, rpos: seq<int>, t: seq<int>)
    requires After(f, s, u, rpos, t, 0)
    ensures Renamed(f, u, rpos, t)
  {
    hide Cfg.Valid, Finished, AllArgsOk, BottomOk, Vregs, Untouched;
    forall x: nat | In(t, x) ensures Finished(f, u, rpos, t, x) { AncRoot(rpos, t, x); }
  }

  lemma OperandsInRange(f: Func, s: Renaming, b: nat, i: nat)
    requires Shaped(f, s) && b < |f.phis| && i < f.Len(b)
    ensures var tac := f.p.code[b][i];
      tac.dst < |s.stacks| && tac.src1 < |s.stacks| && tac.src2 < |s.stacks|
  {
    hide Cfg.Valid;
  }

  /** Filling the slot of one more phi function. */
  lemma SlotFilled(f: Func, s: Renaming, u: Renaming, rpos: seq<int>, t: seq<int>, entry: seq<seq<int>>, was: seq<int>,
                   b: nat, d: nat, k: nat)
    requires b < |f.p.code| && Mid(f, u, rpos, t, entry, was, b, f.Len(b)) && d < |f.phis| && k < |f.phis[d]|
    requires PartFilled(f, u, rpos, t, b, d, k) && Grows(s.issued, u.issued)
    ensures |u.sources[d]| < |u.args[d][k]| && EnsureTop(u, f.phis[d][k]).stacks[f.phis[d][k]] != []
    ensures forall j | 0 <= j < |u.args[d][k]| :: u.args[d][k][j] == -1 <==> |u.sources[d]| <= j
    ensures var w := FillSlot(f, u, d, k);
      && Mid(f, w, rpos, t, entry, was, b, f.Len(b)) && PartFilled(f, w, rpos, t, b, d, k + 1)
      && w.names == u.names && w.sources == u.sources && Grows(s.issued, w.issued)
  {
    hide Cfg.Valid, Vregs, AllArgsOk, PartFilled, Grows, BottomGrows, EntryOk, StacksAre, BottomOk, UsesOk, SitesOk;
    hide Reach;
    MidIsHere(f, u, rpos, t, entry, was, b, f.Len(b));
    SlotIsNext(f, u, rpos, t, b, d, k);
    FillSlotKeeps(f, u, rpos, t, entry, was, b, d, k);
    var w := FillSlot(f, u, d, k);
    MidStable(f, u, w, rpos, t, entry, was, b, f.Len(b));
    GrowsTrans(s.issued, u.issued, w.issued);
  }

  /** Recording that the edge has filled its slots. */
  lemma EdgeDone(f: Func, s: Renaming, u: Renaming, rpos: seq<int>, t: seq<int>, entry: seq<seq<int>>, was: seq<int>,
                 b: nat, e: nat, d: nat)
    requires b < |f.phis| && b < |f.p.code| && Shaped(f, s) && TreeFor(f, rpos, t)
      && Mid(f, u, rpos, t, entry, was, b, f.Len(b))
    requires e < |f.p.g.succ[b]| && d == f.p.g.succ[b][e] && d < |f.phis| && EdgeCount(f, s, b, e)
    requires PartFilled(f, u, rpos, t, b, d, |f.phis[d]|) && u.sources == s.sources
    ensures var w := u.(sources := u.sources[d := u.sources[d] + [b]]);
      && Shaped(f, w) && Mid(f, w, rpos, t, entry, was, b, f.Len(b)) && AllArgsOk(f, w, rpos, t)
      && EdgeCount(f, w, b, e + 1)
  {
    hide Cfg.Valid, Vregs, AllArgsOk, PartFilled, Grows, BottomGrows, EntryOk, StacksAre, BottomOk, UsesOk, SitesOk;
    hide Reach;
    hide EdgeCount;
    var w := u.(sources := u.sources[d := u.sources[d] + [b]]);
    MidIsHere(f, u, rpos, t, entry, was, b, f.Len(b));
    CountUnchanged(f, s, u, b, e);
    EdgeEnds(f, u, w, rpos, t, b, e, d);
    ArgsAreNotHere(f, u, w, rpos, t, entry, was, b, f.Len(b));
    BottomGrowsRefl(u.bottom);
    GrowsRefl(u.issued);
    MidStable(f, u, w, rpos, t, entry, was, b, f.Len(b));
  }

  class Renamer {
    const f: Func
    const idoms: seq<int>
    ghost const rpos: seq<int>
    ghost const t: seq<int>
    ghost const limit: int

    var stacks: seq<seq<int>>           // per vreg; the last element is the top
    var counters: seq<nat>              // per vreg
    var phiSubs: seq<seq<int>>          // ssa_subscript of the phi destinations
    var codeSubs: seq<seq<Subs>>        // ssa_subscript of the instruction operands
    var phiArgs: seq<seq<seq<int>>>     // ssa_subscript of the phi values
    ghost var bottom: seq<int>
    ghost var sources: seq<seq<nat>>
    ghost var issued: seq<seq<Site>>

    constructor (f: Func, idoms: seq<int>, vregCount: nat, ghost rpos: seq<int>, ghost t: seq<int>, ghost limit: int)
      requires TreeFor(f, rpos, t) && Vregs(f, vregCount + 1) && idoms == t[0 := -1]
      ensures Valid() && this.f == f && this.rpos == rpos && this.t == t && this.limit == limit
        && |stacks| == vregCount + 1
      ensures Fresh(f, State())
    {
      assert |f.p.g.pred| == |f.phis|;
      hide Cfg.Valid;
      this.f, this.idoms := f, idoms;
      this.rpos, this.t, this.limit := rpos, t, limit;
      stacks := seq(vregCount + 1, _ => []);
      counters := seq(vregCount + 1, _ => 0);
      phiSubs := seq(|f.phis|, b requires 0 <= b < |f.phis| => seq(|f.phis[b]|, _ => -1));
      codeSubs := seq(|f.p.code|, b requires 0 <= b < |f.p.code| => seq(|f.p.code[b]|, _ => Subs(-1, -1, -1)));
      phiArgs := seq(|f.phis|, b requires 0 <= b < |f.phis| && b < |f.p.g.pred| =>
                       seq(|f.phis[b]|, k => seq(|f.p.g.pred[b]|, _ => -1)));
      bottom := seq(vregCount + 1, _ => -1);
      sources := seq(|f.phis|, _ => []);
      issued := seq(vregCount + 1, _ => []);
    }

    ghost function State(): Renaming
      reads this
    {
      Renaming(stacks, Names(phiSubs, codeSubs), phiArgs, bottom, sources, issued)
    }

    ghost predicate Valid()
      reads this
    {
      && Shaped(f, State()) && TreeFor(f, rpos, t) && |t| > 0 && idoms == t[0 := -1]
      && |counters| == |issued| && forall v | 0 <= v < |counters| :: counters[v] == |issued[v]|
    }

    method NewSubscript(v: nat, ghost site: Site) returns (i: int)
      requires Valid() && v < |stacks|
      modifies this`stacks, this`counters, this`issued
      ensures Valid() && State() == Issue(old(State()), v, site) && i == old(|issued[v]|)
    {
      hide Cfg.Valid, Vregs;
      i := counters[v];
      counters := counters[v := counters[v] + 1];
      stacks := stacks[v := stacks[v] + [i]];
      issued := issued[v := issued[v] + [site]];
    }

    method SafeStackTop(v: nat) returns (x: int)
      requires Valid() && v < |stacks|
      modifies this`stacks, this`counters, this`issued, this`bottom
      ensures Valid() && State() == EnsureTop(old(State()), v)
      ensures stacks[v] != [] && x == Top(State(), v)
    {
      hide Cfg.Valid, Vregs;
      if stacks[v] == [] {
        var i := NewSubscript(v, Undefined);
        bottom := bottom[v := i];
      }
      x := stacks[v][|stacks[v]| - 1];
    }

    /** Name the phi destinations of block `b`. */
    method RenamePhiDsts(b: nat, ghost s: Renaming)
      requires Valid() && State() == s && Before(f, s, rpos, t, b)
      modifies this
      ensures Valid() && OnlyNames(f, s, State(), b) && Mid(f, State(), rpos, t, s.stacks, s.bottom, b, 0)
    {
      hide Cfg.Valid, EntryOk, AllArgsOk, BottomOk, PhiStacks, SitesOk, NoEdgeFilled, OnlyNames;
      StartBlock(f, s, rpos, t, b);
      for k := 0 to |f.phis[b]|
        invariant Valid() && OnlyNames(f, s, State(), b) && PhiMid(f, State(), rpos, t, s.stacks, s.bottom, b, k)
      {
        ghost var was := State();
        NamePhiKeepsMid(f, was, rpos, t, s.stacks, s.bottom, b, k);
        NamePhiOnly(f, was, b, k);
        OnlyNamesTrans(f, s, was, NamePhi(f, was, b, k), b);
        var i := NewSubscript(f.phis[b][k], PhiSite(b, k));
        phiSubs := phiSubs[b := phiSubs[b][k := i]];
        assert State() == NamePhi(f, was, b, k);
      }
      PhisDone(f, State(), rpos, t, s.stacks, s.bottom, b);
    }

    /** Name the operands of the instructions of block `b`. */
    method RenameOperations(b: nat, ghost s: Renaming)
      requires Valid() && Shaped(f, s) && b < |f.phis| && OnlyNames(f, s, State(), b)
      requires Mid(f, State(), rpos, t, s.stacks, s.bottom, b, 0)
      modifies this
      ensures Valid() && OnlyNames(f, s, State(), b) && Mid(f, State(), rpos, t, s.stacks, s.bottom, b, f.Len(b))
    {
      hide Cfg.Valid, Mid, OnlyNames, Vregs;
      for i := 0 to |f.p.code[b]|
        invariant Valid() && OnlyNames(f, s, State(), b) && Mid(f, State(), rpos, t, s.stacks, s.bottom, b, i)
      {
        ghost var was := State();
        InstrStep(f, was, rpos, t, s.stacks, s.bottom, b, i);
        RenameInstr(b, i);
        OnlyNamesTrans(f, s, was, State(), b);
      }
    }

    method RenameInstr(b: nat, i: nat)
      requires Valid() && b < |f.phis| && i < f.Len(b)
      requires Shaped(f, InstrNamed(f, State(), b, i))
      modifies this
      ensures Valid() && State() == InstrNamed(f, old(State()), b, i)
    {
      hide Cfg.Valid, Vregs, Ensured, UseName, Defined, DefName;
      var tac := f.p.code[b][i];
      OperandsInRange(f, State(), b, i);
      var a := NameOperand(tac.src1);
      var c := NameOperand(tac.src2);
      var x := NameResult(tac.dst, DefSite(b, i));
      codeSubs := codeSubs[b := codeSubs[b][i := Subs(x, a, c)]];
    }

    /** The current name of an operand; -1 if it is absent. */
    method NameOperand(v: nat) returns (x: int)
      requires Valid() && v < |stacks|
      modifies this`stacks, this`counters, this`issued, this`bottom
      ensures Valid() && State() == Ensured(old(State()), v) && x == UseName(old(State()), v)
      ensures |stacks| == old(|stacks|)
    {
      hide Cfg.Valid, Vregs;
      x := -1;
      if v != 0 { x := SafeStackTop(v); }
    }

    /** A new name for a result; -1 if it is absent. */
    method NameResult(v: nat, ghost site: Site) returns (x: int)
      requires Valid() && v < |stacks|
      modifies this`stacks, this`counters, this`issued
      ensures Valid() && State() == Defined(old(State()), v, site) && x == DefName(old(State()), v)
    {
      hide Cfg.Valid, Vregs;
      x := -1;
      if v != 0 { x := NewSubscript(v, site); }
    }

    /** Put the current name of the vreg of phi function `k` of `d` in its first empty slot. */
    method FillFirstEmpty(d: nat, k: nat)
      requires Valid() && d < |f.phis| && k < |f.phis[d]| && |sources[d]| < |phiArgs[d][k]|
      requires forall j | 0 <= j < |phiArgs[d][k]| :: phiArgs[d][k][j] == -1 <==> |sources[d]| <= j
      requires EnsureTop(State(), f.phis[d][k]).stacks[f.phis[d][k]] != []
      modifies this
      ensures Valid() && State() == FillSlot(f, old(State()), d, k)
    {
      hide Cfg.Valid;
      var j := 0;
      while j < |phiArgs[d][k]| && phiArgs[d][k][j] != -1
        invariant j <= |sources[d]|
      {
        j := j + 1;
      }
      if j < |phiArgs[d][k]| {
        var x := SafeStackTop(f.phis[d][k]);
        phiArgs := phiArgs[d := phiArgs[d][k := phiArgs[d][k][j := x]]];
      }
    }

    /** Fill one slot of every phi function of the successor that edge `e` of `b` leads to. */
    method FillEdge(b: nat, e: nat, ghost entry: seq<seq<int>>, ghost was: seq<int>)
      requires Valid() && b < |f.phis| && e < |f.p.g.succ[b]|
      requires Mid(f, State(), rpos, t, entry, was, b, f.Len(b)) && AllArgsOk(f, State(), rpos, t)
        && EdgeCount(f, State(), b, e)
      modifies this
      ensures Valid() && Mid(f, State(), rpos, t, entry, was, b, f.Len(b)) && AllArgsOk(f, State(), rpos, t)
      ensures EdgeCount(f, State(), b, e + 1) && OnlyEdgesOf(f, old(State()), State(), b)
      ensures State().names == old(State().names) && Grows(old(issued), issued)
    {
      hide Cfg.Valid, Vregs, AllArgsOk, EdgeCount, Mid, PartFilled, Grows, BottomGrows, FillSlot, EnsureTop;
      ghost var s := State();
      var d := f.p.g.succ[b][e];
      SuccInRange(f, s, b, e);
      EdgeBegins(f, s, rpos, t, b, e, d);
      GrowsRefl(issued);
      for k := 0 to |f.phis[d]|
        invariant Valid() && Mid(f, State(), rpos, t, entry, was, b, f.Len(b))
          && PartFilled(f, State(), rpos, t, b, d, k)
        invariant State().names == s.names && sources == s.sources && Grows(s.issued, issued)
      {
        ghost var u := State();
        SlotFilled(f, s, u, rpos, t, entry, was, b, d, k);
        FillFirstEmpty(d, k);
      }
      EdgeDone(f, s, State(), rpos, t, entry, was, b, e, d);
      sources := sources[d := sources[d] + [b]];
    }

    method FillSuccessors(b: nat, ghost s: Renaming)
      requires Valid() && Shaped(f, s) && b < |f.phis| && NoEdgeFilled(f, s, b) && sources == s.sources
      requires Mid(f, State(), rpos, t, s.stacks, s.bottom, b, f.Len(b)) && AllArgsOk(f, State(), rpos, t)
      modifies this
      ensures Valid() && Mid(f, State(), rpos, t, s.stacks, s.bottom, b, f.Len(b)) && AllArgsOk(f, State(), rpos, t)
      ensures EdgeCount(f, State(), b, |f.p.g.succ[b]|) && OnlyEdgesOf(f, s, State(), b)
      ensures State().names == old(State().names) && Grows(old(issued), issued)
    {
      hide Cfg.Valid, Vregs, AllArgsOk, EdgeCount, Mid, Grows, NoEdgeFilled;
      ghost var u := State();
      NoEdgesYet(f, s, u, b);
      GrowsRefl(issued);
      for e := 0 to |f.p.g.succ[b]|
        invariant Valid() && Mid(f, State(), rpos, t, s.stacks, s.bottom, b, f.Len(b)) && AllArgsOk(f, State(), rpos, t)
        invariant EdgeCount(f, State(), b, e) && OnlyEdgesOf(f, s, State(), b)
        invariant State().names == u.names && Grows(u.issued, issued)
      {
        ghost var w := State();
        FillEdge(b, e, s.stacks, s.bottom);
        GrowsTrans(u.issued, w.issued, issued);
      }
    }

    /** Pop the definitions of block `b`. */
    method PopBlock(b: nat, ghost entry: seq<seq<int>>)
      requires Valid() && b < |f.phis| && StacksAre(f, State(), entry, b, f.Len(b))
      modifies this`stacks
      ensures Valid() && Restored(entry, State())
    {
      hide Cfg.Valid, Defs, Popped, HoldsDefs;
      ghost var full, s := stacks, State();
      StartPops(f, s, entry, b);
      for k := 0 to |f.phis[b]|
        invariant Valid() && Popped(f, State(), full, b, k, 0)
      {
        PopPhi(f, State(), full, b, k);
        var v := f.phis[b][k];
        stacks := stacks[v := stacks[v][..|stacks[v]| - 1]];
      }
      for i := 0 to |f.p.code[b]|
        invariant Valid() && Popped(f, State(), full, b, |f.phis[b]|, i)
      {
        PopInstr(f, State(), full, b, i);
        var v := f.p.code[b][i].dst;
        if v != 0 {
          stacks := stacks[v := stacks[v][..|stacks[v]| - 1]];
        }
      }
      AllPopped(f, State(), full, entry, b);
    }

    /** Rename block `b` and everything it dominates. */
    method RenameVars(b: nat)
      requires Valid() && Before(f, State(), rpos, t, b)
      requires forall x | In(t, x) :: rpos[x] <= limit
      modifies this
      ensures Valid() && After(f, old(State()), State(), rpos, t, b)
      decreases limit - rpos[b]
    {
      hide Cfg.Valid, Vregs, Mid, After, Between, BottomOk, AllArgsOk, EntryOk, NoEdgeFilled, StacksAre, EdgeCount;
      hide OnlyEdgesOf;
      ghost var s := State();
      RenamePhiDsts(b, s);
      RenameOperations(b, s);
      NamingKeepsArgs(f, s, State(), rpos, t, b);
      assert Under(rpos, t, b, b);
      ghost var named := State();
      FillSuccessors(b, s);
      GrowsTrans(s.issued, named.issued, issued);
      BlockDone(f, s, State(), rpos, t, b);
      for i := 0 to |f.phis|
        invariant Valid() && Between(f, s, State(), rpos, t, b, i)
      {
        if idoms[i] == b {
          ghost var u := State();
          ChildBefore(f, s, u, rpos, t, b, i);
          ChildDeeper(rpos, t, b, i);
          RenameVars(i);
          ChildStep(f, s, u, State(), rpos, t, b, i);
        } else {
          NotAChild(f, s, State(), rpos, t, b, i);
        }
      }
      ghost var u := State();
      BetweenIsHere(f, s, u, rpos, t, b, |t|);
      PopBlock(b, s.stacks);
      RestoredSound(s, u, State());
      SubtreeDone(f, s, u, State(), rpos, t, b);
    }
  }

  /** Rename the whole function, from block 0 down the dominator tree. */
  method RenamePhiFunctionVariables(f: Func, idoms: seq<int>, vregCount: nat, ghost rpos: seq<int>, ghost t: seq<int>,
                                    ghost limit: int)
    returns (r: Renamer)
    requires TreeFor(f, rpos, t) && Vregs(f, vregCount + 1) && idoms == t[0 := -1]
      && forall x | In(t, x) :: rpos[x] <= limit
    ensures fresh(r) && r.Valid() && r.f == f && Renamed(f, r.State(), rpos, t)
  {
    hide Cfg.Valid, Before, After, Fresh, Vregs;
    r := new Renamer(f, idoms, vregCount, rpos, t, limit);
    FreshIsReady(f, r.State(), rpos, t);
    ghost var s := r.State();
    r.RenameVars(0);
    AllUnderZero(f, s, r.State(), rpos, t);
  }
}
