/** The state of renaming and what each step of it keeps (rename_vars, ssa.c:877-1005). Throughout, the stack of a vreg
    holds, from the top down, the definitions of the current block so far and those that reach the block from its
    dominators; below them there is at most one bottom entry, for uses that no definition reaches. */
module RenameState {
  import opened Cfgs
  import opened DomTree
  import opened Ir
  import opened SsaNames
  import opened Basics

  /** What a subscript was issued for. */
  datatype Site = PhiSite(b: nat, k: nat) | DefSite(b: nat, i: nat) | Undefined

  /** Stacks, counters and subscripts, as rename_vars keeps them. `args` are the slots of the phi functions. The rest is
      bookkeeping for the proof: the bottom entry pushed for uses of an undefined vreg, the blocks whose edges filled
      the slots of each block, and what every subscript of a vreg was issued for. */
  datatype Renaming = Renaming(
    stacks: seq<seq<int>>, names: Names, args: seq<seq<seq<int>>>,
    bottom: seq<int>, sources: seq<seq<nat>>, issued: seq<seq<Site>>)

  ghost predicate Vregs(f: Func, count: nat) {
    && (forall b, i | 0 <= b < |f.p.code| && 0 <= i < |f.p.code[b]| ::
          f.p.code[b][i].dst < count && f.p.code[b][i].src1 < count && f.p.code[b][i].src2 < count)
    && (forall b, k | 0 <= b < |f.phis| && 0 <= k < |f.phis[b]| :: f.phis[b][k] < count)
  }

  ghost predicate Shaped(f: Func, s: Renaming) {
    && Fits(f, s.names) && Vregs(f, |s.stacks|)
    && |s.bottom| == |s.issued| == |s.stacks|
    && |s.args| == |s.sources| == |f.phis|
    && (forall d | 0 <= d < |s.args| :: |s.args[d]| == |f.phis[d]|)
    && (forall d, k | 0 <= d < |s.args| && 0 <= k < |s.args[d]| :: |s.args[d][k]| == |f.p.g.pred[d]|)
  }

  /** A fixed dominator tree for `f`. */
  ghost predicate TreeFor(f: Func, rpos: seq<int>, t: seq<int>) {
    f.Valid() && Tree(rpos, t) && |t| == |f.phis|
  }

  ghost predicate BottomGrows(was: seq<int>, now: seq<int>) {
    |was| == |now| && forall v | 0 <= v < |was| && was[v] != -1 :: now[v] == was[v]
  }

  /** Bottom entries are added only to stacks that were empty. */
  ghost predicate KeepsBottom(entry: seq<seq<int>>, was: seq<int>, now: seq<int>) {
    |entry| == |was| == |now| && forall v | 0 < v < |was| && entry[v] != [] :: now[v] == was[v]
  }

  /** The stack of `v` below the definitions of the current block. */
  ghost function Base(entry: seq<seq<int>>, bottom: seq<int>, v: nat): seq<int>
    requires v < |entry| == |bottom|
  {
    if entry[v] != [] then entry[v] else if bottom[v] == -1 then [] else [bottom[v]]
  }

  /** On entry to block `b` the stacks hold the names that reach it from its dominators, above at most a bottom
      entry. */
  ghost predicate EntryOk(f: Func, n: Names, rpos: seq<int>, t: seq<int>, b: int, entry: seq<seq<int>>,
                          bottom: seq<int>)
    requires Fits(f, n) && TreeFor(f, rpos, t) && In(t, b)
  {
    && |entry| == |bottom|
    && forall v: nat | 0 < v < |entry| ::
         match Entering(f, n, rpos, t, b, v)
         case Some(x) => entry[v] != [] && entry[v][|entry[v]| - 1] == x
         case None => entry[v] == if bottom[v] == -1 then [] else [bottom[v]]
  }

  /** In block `b` before instruction `i` every stack holds the definitions of the block so far on top of its base. */
  ghost predicate StacksAre(f: Func, s: Renaming, entry: seq<seq<int>>, b: nat, i: nat)
    requires Shaped(f, s) && b < |f.phis| && i <= f.Len(b)
  {
    && |entry| == |s.stacks|
    && forall v: nat | 0 < v < |entry| :: s.stacks[v] == Base(entry, s.bottom, v) + Defs(f, s.names, b, i, v)
  }

  /** The subscript a use of `v` gets: the reaching definition, or else the bottom entry. */
  ghost function NameAt(f: Func, n: Names, rpos: seq<int>, t: seq<int>, bottom: seq<int>, b: int, i: nat, v: nat): int
    requires Fits(f, n) && TreeFor(f, rpos, t) && In(t, b) && i <= f.Len(b) && 0 < v < |bottom|
  {
    match Reach(f, n, rpos, t, b, i, v)
    case Some(x) => x
    case None => bottom[v]
  }

  lemma ReachUnfold(f: Func, n: Names, rpos: seq<int>, t: seq<int>, b: nat, i: nat, v: nat)
    requires Fits(f, n) && TreeFor(f, rpos, t) && In(t, b) && i <= f.Len(b) && v != 0
    ensures Reach(f, n, rpos, t, b, i, v) ==
              if Defs(f, n, b, i, v) != [] then Last(Defs(f, n, b, i, v)) else Entering(f, n, rpos, t, b, v)
  {
  }

  /** The top of the stack is the name the use gets; the stack is empty exactly if there is neither. */
  lemma TopIsName(f: Func, s: Renaming, rpos: seq<int>, t: seq<int>, entry: seq<seq<int>>, was: seq<int>, b: nat,
                  i: nat, v: nat)
    requires Shaped(f, s) && TreeFor(f, rpos, t) && In(t, b) && i <= f.Len(b) && 0 < v < |s.stacks|
    requires EntryOk(f, s.names, rpos, t, b, entry, was) && BottomGrows(was, s.bottom)
    requires StacksAre(f, s, entry, b, i)
    ensures s.stacks[v] != [] ==>
              s.stacks[v][|s.stacks[v]| - 1] == NameAt(f, s.names, rpos, t, s.bottom, b, i, v)
    ensures s.stacks[v] == [] <==> Reach(f, s.names, rpos, t, b, i, v) == None && s.bottom[v] == -1
  {
    hide Cfg.Valid, Defs, Entering, Reach, Vregs;
    assert s.stacks[v] == Base(entry, s.bottom, v) + Defs(f, s.names, b, i, v);
    ReachUnfold(f, s.names, rpos, t, b, i, v);
  }

  /** A use of `v` before instruction `i` carries its name. */
  ghost predicate UseOk(f: Func, s: Renaming, rpos: seq<int>, t: seq<int>, b: nat, i: nat, v: nat, sub: int)
    requires Shaped(f, s) && TreeFor(f, rpos, t) && In(t, b) && i <= f.Len(b) && v < |s.bottom|
  {
    if v == 0 then sub == -1 else sub != -1 && sub == NameAt(f, s.names, rpos, t, s.bottom, b, i, v)
  }

  /** The operands read by the first `i` instructions of `b` carry their names. */
  ghost predicate UsesOk(f: Func, s: Renaming, rpos: seq<int>, t: seq<int>, b: nat, i: nat)
    requires Shaped(f, s) && TreeFor(f, rpos, t) && In(t, b) && i <= f.Len(b)
  {
    forall j | 0 <= j < i ::
      && UseOk(f, s, rpos, t, b, j, f.p.code[b][j].src1, s.names.code[b][j].src1)
      && UseOk(f, s, rpos, t, b, j, f.p.code[b][j].src2, s.names.code[b][j].src2)
  }

  ghost predicate Issued(s: Renaming, v: nat, x: int, site: Site) {
    v < |s.issued| && 0 <= x < |s.issued[v]| && s.issued[v][x] == site
  }

  /** Each of the first `k` phi functions and `i` instructions of `b` has a subscript issued for it alone. */
  ghost predicate SitesOk(f: Func, s: Renaming, b: nat, k: nat, i: nat)
    requires Shaped(f, s) && b < |f.phis| && k <= |f.phis[b]| && i <= f.Len(b)
  {
    && (forall j | 0 <= j < k :: Issued(s, f.phis[b][j], s.names.phi[b][j], PhiSite(b, j)))
    && (forall j | 0 <= j < i ::
          if f.p.code[b][j].dst == 0 then s.names.code[b][j].dst == -1
          else Issued(s, f.p.code[b][j].dst, s.names.code[b][j].dst, DefSite(b, j)))
  }

  /** Subscripts are not negative, and only the bottom entry of a vreg was issued for its undefined uses. */
  ghost predicate BottomOk(s: Renaming) {
    && |s.bottom| == |s.issued| == |s.stacks|
    && (forall v, j | 0 < v < |s.stacks| && 0 <= j < |s.stacks[v]| :: 0 <= s.stacks[v][j])
    && forall v | 0 <= v < |s.bottom| ::
         && -1 <= s.bottom[v] < |s.issued[v]|
         && (forall x | 0 <= x < |s.issued[v]| :: s.issued[v][x] == Undefined <==> x == s.bottom[v])
  }

  /** Slot `j` of a phi function for `v` holds the name of `v` at the end of the block whose edge filled it; later
      slots are still empty. */
  ghost predicate SlotsOk(f: Func, s: Renaming, rpos: seq<int>, t: seq<int>, d: nat, v: nat, slots: seq<int>,
                          filled: seq<nat>)
    requires Shaped(f, s) && TreeFor(f, rpos, t) && 0 < v < |s.bottom|
  {
    && |filled| <= |slots|
    && (forall j | 0 <= j < |filled| :: In(t, filled[j]) &&
          slots[j] != -1 && slots[j] == NameAt(f, s.names, rpos, t, s.bottom, filled[j], f.Len(filled[j]), v))
    && (forall j | |filled| <= j < |slots| :: slots[j] == -1)
  }

  ghost predicate ArgsOk(f: Func, s: Renaming, rpos: seq<int>, t: seq<int>, d: nat)
    requires Shaped(f, s) && TreeFor(f, rpos, t) && d < |f.phis|
  {
    && multiset(s.sources[d]) <= multiset(f.p.g.pred[d])
    && forall k | 0 <= k < |f.phis[d]| :: SlotsOk(f, s, rpos, t, d, f.phis[d][k], s.args[d][k], s.sources[d])
  }

  ghost predicate AllArgsOk(f: Func, s: Renaming, rpos: seq<int>, t: seq<int>)
    requires Shaped(f, s) && TreeFor(f, rpos, t)
  {
    forall d: nat | d < |f.phis| :: ArgsOk(f, s, rpos, t, d)
  }

  /** The edges out of `x` have all filled their slots, or none has. */
  ghost predicate EdgesFilled(f: Func, s: Renaming, x: nat)
    requires Shaped(f, s) && x < |f.phis|
  {
    forall d | 0 <= d < |f.phis| :: multiset(s.sources[d])[x] == multiset(f.p.g.succ[x])[d]
  }

  ghost predicate NoEdgeFilled(f: Func, s: Renaming, x: nat)
    requires Shaped(f, s) && x < |f.phis|
  {
    forall d | 0 <= d < |f.phis| :: x !in s.sources[d]
  }

  ghost predicate Grows<T>(was: seq<seq<T>>, now: seq<seq<T>>) {
    |was| == |now| && forall v | 0 <= v < |was| :: was[v] <= now[v]
  }

  // Steps

  /** Issue the next subscript of `v` for `site` and push it (new_subscript). */
  ghost function Issue(s: Renaming, v: nat, site: Site): Renaming
    requires v < |s.stacks| == |s.issued|
  {
    s.(stacks := s.stacks[v := s.stacks[v] + [|s.issued[v]|]], issued := s.issued[v := s.issued[v] + [site]])
  }

  /** Make sure that the stack of `v` has a top (safe_stack_top). */
  ghost function EnsureTop(s: Renaming, v: nat): Renaming
    requires v < |s.stacks| == |s.issued| == |s.bottom|
  {
    if s.stacks[v] != [] then s else Issue(s, v, Undefined).(bottom := s.bottom[v := |s.issued[v]|])
  }

  ghost function Top(s: Renaming, v: nat): int
    requires v < |s.stacks| && s.stacks[v] != []
  {
    s.stacks[v][|s.stacks[v]| - 1]
  }

  ghost function SetCode(n: Names, b: nat, i: nat, x: Subs): Names
    requires b < |n.code| && i < |n.code[b]|
  {
    n.(code := n.code[b := n.code[b][i := x]])
  }

  ghost function SetPhi(n: Names, b: nat, k: nat, x: int): Names
    requires b < |n.phi| && k < |n.phi[b]|
  {
    n.(phi := n.phi[b := n.phi[b][k := x]])
  }

  /** Everything known in block `b` before instruction `i`. */
  ghost predicate Here(f: Func, s: Renaming, rpos: seq<int>, t: seq<int>, entry: seq<seq<int>>, was: seq<int>, b: nat,
                       i: nat) {
    && Shaped(f, s) && TreeFor(f, rpos, t) && In(t, b) && i <= f.Len(b) && |entry| == |s.stacks|
    && EntryOk(f, s.names, rpos, t, b, entry, was) && BottomGrows(was, s.bottom)
    && KeepsBottom(entry, was, s.bottom) && StacksAre(f, s, entry, b, i) && BottomOk(s)
  }

  lemma EnsureTopSound(s: Renaming, v: nat)
    requires BottomOk(s) && v < |s.stacks| && (s.bottom[v] != -1 ==> s.stacks[v] != [])
    ensures BottomOk(EnsureTop(s, v)) && EnsureTop(s, v).stacks[v] != []
    ensures BottomGrows(s.bottom, EnsureTop(s, v).bottom) && Grows(s.issued, EnsureTop(s, v).issued)
  {
  }

  lemma EnsureTopStacks(f: Func, s: Renaming, entry: seq<seq<int>>, b: nat, i: nat, v: nat)
    requires Shaped(f, s) && b < |f.phis| && i <= f.Len(b) && |entry| == |s.stacks| && 0 < v < |s.stacks|
    requires StacksAre(f, s, entry, b, i)
    ensures Shaped(f, EnsureTop(s, v)) && StacksAre(f, EnsureTop(s, v), entry, b, i)
    ensures s.stacks[v] == [] ==> entry[v] == []
  {
    var u := EnsureTop(s, v);
    if s.stacks[v] == [] {
      assert Base(entry, s.bottom, v) + Defs(f, s.names, b, i, v) == [];
      assert entry[v] == [] && Defs(f, s.names, b, i, v) == [];
      assert u.stacks[v] == [|s.issued[v]|] == Base(entry, u.bottom, v) + Defs(f, u.names, b, i, v);
    }
  }

  lemma BottomGrowsTrans(a: seq<int>, b: seq<int>, c: seq<int>)
    requires BottomGrows(a, b) && BottomGrows(b, c)
    ensures BottomGrows(a, c)
  {
  }

  lemma EnsureTopKeepsHere(f: Func, s: Renaming, rpos: seq<int>, t: seq<int>, entry: seq<seq<int>>, was: seq<int>,
                           b: nat, i: nat, v: nat)
    requires Here(f, s, rpos, t, entry, was, b, i) && 0 < v < |s.stacks|
    ensures var u := EnsureTop(s, v);
      && Here(f, u, rpos, t, entry, was, b, i) && u.stacks[v] != [] && Top(u, v) != -1
      && Top(u, v) == NameAt(f, u.names, rpos, t, u.bottom, b, i, v)
      && BottomGrows(s.bottom, u.bottom) && Grows(s.issued, u.issued)
  {
    hide EntryOk, StacksAre, Fits, Vregs, NameAt, Reach;
    var u := EnsureTop(s, v);
    TopIsName(f, s, rpos, t, entry, was, b, i, v);
    EnsureTopSound(s, v);
    EnsureTopStacks(f, s, entry, b, i, v);
    BottomGrowsTrans(was, s.bottom, u.bottom);
    TopIsName(f, u, rpos, t, entry, was, b, i, v);
    assert u.stacks[v][|u.stacks[v]| - 1] >= 0;
  }
}
