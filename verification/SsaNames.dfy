/** SSA names: the subscripts that renaming gives to the operands of instructions and phi functions, and which
    definition a name stands for (ssa.c:898-1005). The name of a vreg at a point is the last definition in the block
    before it, or else the name at the end of the immediate dominator. */
module SsaNames {
  import opened Cfgs
  import opened DomTree
  import opened Ir
  import opened Basics

  /** The function being renamed: its code and, per block, the vregs that have a phi function there. */
  datatype Func = Func(p: Program, phis: seq<seq<nat>>) {
    ghost predicate Valid() {
      && p.Valid() && |phis| == |p.code|
      && (forall b, k | 0 <= b < |phis| && 0 <= k < |phis[b]| :: phis[b][k] != 0)
    }

    function Len(b: nat): nat
      requires b < |p.code|
    {
      |p.code[b]|
    }
  }

  /** Subscripts of the operands of one instruction; -1 where there is none. */
  datatype Subs = Subs(dst: int, src1: int, src2: int)

  /** Subscripts of the phi destinations and of the instruction operands of every block. */
  datatype Names = Names(phi: seq<seq<int>>, code: seq<seq<Subs>>)

  ghost predicate Fits(f: Func, n: Names) {
    && f.Valid() && |n.phi| == |n.code| == |f.p.code|
    && (forall b | 0 <= b < |f.phis| :: |n.phi[b]| == |f.phis[b]| && |n.code[b]| == |f.p.code[b]|)
  }

  /** The subscripts that the first `k` phi functions of block `b` give to `v`, oldest first. */
  ghost function PhiDefs(f: Func, n: Names, b: nat, k: nat, v: nat): seq<int>
    requires Fits(f, n) && b < |f.phis| && k <= |f.phis[b]|
  {
    if k == 0 then [] else PhiDefs(f, n, b, k - 1, v) + (if f.phis[b][k - 1] == v then [n.phi[b][k - 1]] else [])
  }

  /** The subscripts given to `v` by the phi functions of `b` and its first `i` instructions, oldest first. */
  ghost function Defs(f: Func, n: Names, b: nat, i: nat, v: nat): seq<int>
    requires Fits(f, n) && b < |f.phis| && i <= f.Len(b) && v != 0
  {
    if i == 0 then PhiDefs(f, n, b, |f.phis[b]|, v)
    else Defs(f, n, b, i - 1, v) + (if f.p.code[b][i - 1].dst == v then [n.code[b][i - 1].dst] else [])
  }

  ghost function Last(s: seq<int>): Option<int> {
    if s == [] then None else Some(s[|s| - 1])
  }

  /** The name of `v` before instruction `i` of block `b`: the last definition in `b` before `i`, or else the one at
      the end of the immediate dominator. None if no definition of `v` dominates this point. */
  ghost function Reach(f: Func, n: Names, rpos: seq<int>, t: seq<int>, b: int, i: nat, v: nat): Option<int>
    requires Fits(f, n) && Tree(rpos, t) && |t| == |f.phis| && In(t, b) && i <= f.Len(b) && v != 0
    decreases rpos[b]
  {
    var d := Defs(f, n, b, i, v);
    if d != [] then Last(d) else if b == 0 then None else Reach(f, n, rpos, t, t[b], f.Len(t[b]), v)
  }

  /** The name that reaches the start of block `b` from its immediate dominator. */
  ghost function Entering(f: Func, n: Names, rpos: seq<int>, t: seq<int>, b: int, v: nat): Option<int>
    requires Fits(f, n) && Tree(rpos, t) && |t| == |f.phis| && In(t, b) && v != 0
  {
    if b == 0 then None else Reach(f, n, rpos, t, t[b], f.Len(t[b]), v)
  }

  ghost predicate SameBlock(n: Names, m: Names, b: nat) {
    b < |n.phi| && b < |m.phi| && b < |n.code| && b < |m.code| && n.phi[b] == m.phi[b] && n.code[b] == m.code[b]
  }

  lemma {:induction false} PhiDefsFrame(f: Func, n: Names, m: Names, b: nat, k: nat, v: nat)
    requires Fits(f, n) && Fits(f, m) && b < |f.phis| && k <= |f.phis[b]|
    requires forall j | 0 <= j < k :: n.phi[b][j] == m.phi[b][j]
    ensures PhiDefs(f, n, b, k, v) == PhiDefs(f, m, b, k, v)
  {
    if k > 0 { PhiDefsFrame(f, n, m, b, k - 1, v); }
  }

  lemma {:induction false} DefsFrame(f: Func, n: Names, m: Names, b: nat, i: nat, v: nat)
    requires Fits(f, n) && Fits(f, m) && b < |f.phis| && i <= f.Len(b) && v != 0
    requires n.phi[b] == m.phi[b] && forall j | 0 <= j < i :: n.code[b][j].dst == m.code[b][j].dst
    ensures Defs(f, n, b, i, v) == Defs(f, m, b, i, v)
  {
    if i == 0 { PhiDefsFrame(f, n, m, b, |f.phis[b]|, v); } else { DefsFrame(f, n, m, b, i - 1, v); }
  }

  /** Names depend only on the blocks of the dominator chain. */
  lemma {:induction false} ReachFrame(f: Func, n: Names, m: Names, rpos: seq<int>, t: seq<int>, b: int, i: nat, v: nat)
    requires Fits(f, n) && Fits(f, m) && Tree(rpos, t) && |t| == |f.phis| && In(t, b) && i <= f.Len(b) && v != 0
    requires forall x | In(t, x) && Anc(rpos, t, x, b) :: SameBlock(n, m, x)
    ensures Reach(f, n, rpos, t, b, i, v) == Reach(f, m, rpos, t, b, i, v)
    decreases rpos[b]
  {
    assert Anc(rpos, t, b, b);
    DefsFrame(f, n, m, b, i, v);
    if b != 0 { ReachFrame(f, n, m, rpos, t, t[b], f.Len(t[b]), v); }
  }

  lemma {:induction false} EnteringFrame(f: Func, n: Names, m: Names, rpos: seq<int>, t: seq<int>, b: int, v: nat)
    requires Fits(f, n) && Fits(f, m) && Tree(rpos, t) && |t| == |f.phis| && In(t, b) && v != 0
    requires forall x | In(t, x) && x != b && Anc(rpos, t, x, b) :: SameBlock(n, m, x)
    ensures Entering(f, n, rpos, t, b, v) == Entering(f, m, rpos, t, b, v)
  {
    if b != 0 {
      forall x | In(t, x) && Anc(rpos, t, x, t[b]) ensures SameBlock(n, m, x) {
        AncRank(rpos, t, x, t[b]);
      }
      ReachFrame(f, n, m, rpos, t, t[b], f.Len(t[b]), v);
    }
  }
}
