/** Renaming the instructions of one block (ssa.c:936-959). Each instruction first makes sure that its operands have
    a name, which may push bottom entries, and then pushes a new subscript for its destination. Neither step changes
    a name that reaches an earlier point, so the uses named before stay right. */
module RenameBlock {
  import opened Cfgs
  import opened DomTree
  import opened Ir
  import opened SsaNames
  import opened RenameState

  /** In block `b` before instruction `i`, with its phi functions and earlier instructions named. */
  ghost predicate Mid(f: Func, s: Renaming, rpos: seq<int>, t: seq<int>, entry: seq<seq<int>>, was: seq<int>, b: nat,
                      i: nat) {
    && Here(f, s, rpos, t, entry, was, b, i)
    && UsesOk(f, s, rpos, t, b, i) && SitesOk(f, s, b, |f.phis[b]|, i)
  }

  /** Block `x` is completely named. */
  ghost predicate BlockOk(f: Func, s: Renaming, rpos: seq<int>, t: seq<int>, x: nat)
    requires Shaped(f, s) && TreeFor(f, rpos, t) && In(t, x)
  {
    UsesOk(f, s, rpos, t, x, f.Len(x)) && SitesOk(f, s, x, |f.phis[x]|, f.Len(x))
  }

  /** Names of uses stay right while bottoms are added and the names on the dominator chain stay. */
  lemma UsesStable(f: Func, s: Renaming, u: Renaming, rpos: seq<int>, t: seq<int>, x: nat, i: nat)
    requires Shaped(f, s) && Shaped(f, u) && TreeFor(f, rpos, t) && In(t, x) && i <= f.Len(x)
      && |s.stacks| == |u.stacks|
    requires BottomGrows(s.bottom, u.bottom) && s.names.code[x] == u.names.code[x]
    requires forall j, v: nat | 0 <= j < i && 0 < v < |s.stacks| ::
               Reach(f, s.names, rpos, t, x, j, v) == Reach(f, u.names, rpos, t, x, j, v)
    requires UsesOk(f, s, rpos, t, x, i)
    ensures UsesOk(f, u, rpos, t, x, i)
  {
    hide Reach;
  }

  lemma SitesStable(f: Func, s: Renaming, u: Renaming, x: nat, k: nat, i: nat)
    requires Shaped(f, s) && Shaped(f, u) && x < |f.phis| && k <= |f.phis[x]| && i <= f.Len(x)
    requires Grows(s.issued, u.issued)
    requires forall j | 0 <= j < k :: s.names.phi[x][j] == u.names.phi[x][j]
    requires forall j | 0 <= j < i :: s.names.code[x][j] == u.names.code[x][j]
    requires SitesOk(f, s, x, k, i)
    ensures SitesOk(f, u, x, k, i)
  {
    hide Vregs, Cfg.Valid;
    forall j | 0 <= j < k ensures Issued(u, f.phis[x][j], u.names.phi[x][j], PhiSite(x, j)) {
      assert Issued(s, f.phis[x][j], s.names.phi[x][j], PhiSite(x, j));
    }
    forall j | 0 <= j < i && f.p.code[x][j].dst != 0
      ensures Issued(u, f.p.code[x][j].dst, u.names.code[x][j].dst, DefSite(x, j))
    {
      assert s.names.code[x][j] == u.names.code[x][j];
      assert Issued(s, f.p.code[x][j].dst, s.names.code[x][j].dst, DefSite(x, j));
    }
  }

  /** Naming instruction `i` of `b` changes no name that reaches a point up to `i`. */
  lemma SetCodeFrame(f: Func, n: Names, rpos: seq<int>, t: seq<int>, b: nat, i: nat, x: Subs, v: nat)
    requires Fits(f, n) && TreeFor(f, rpos, t) && In(t, b) && i < f.Len(b) && v != 0
    ensures Fits(f, SetCode(n, b, i, x))
    ensures Entering(f, n, rpos, t, b, v) == Entering(f, SetCode(n, b, i, x), rpos, t, b, v)
    ensures forall j | 0 <= j <= i :: Defs(f, n, b, j, v) == Defs(f, SetCode(n, b, i, x), b, j, v)
    ensures forall j | 0 <= j <= i :: Reach(f, n, rpos, t, b, j, v) == Reach(f, SetCode(n, b, i, x), rpos, t, b, j, v)
  {
    var m := SetCode(n, b, i, x);
    EnteringFrame(f, n, m, rpos, t, b, v);
    forall j | 0 <= j <= i
      ensures Defs(f, n, b, j, v) == Defs(f, m, b, j, v)
        && Reach(f, n, rpos, t, b, j, v) == Reach(f, m, rpos, t, b, j, v)
    {
      DefsFrame(f, n, m, b, j, v);
      ReachUnfold(f, n, rpos, t, b, j, v);
      ReachUnfold(f, m, rpos, t, b, j, v);
    }
  }

  /** The same for all vregs at once. */
  lemma SetCodeFrameAll(f: Func, n: Names, m: Names, rpos: seq<int>, t: seq<int>, b: nat, i: nat)
    requires Fits(f, n) && TreeFor(f, rpos, t) && In(t, b) && i < f.Len(b) && Fits(f, m)
    requires m == SetCode(n, b, i, m.code[b][i])
    ensures forall v: nat | v != 0 :: Entering(f, n, rpos, t, b, v) == Entering(f, m, rpos, t, b, v)
    ensures forall v: nat | v != 0 :: Defs(f, n, b, i, v) == Defs(f, m, b, i, v)
    ensures forall j, v: nat | 0 <= j <= i && v != 0 :: Reach(f, n, rpos, t, b, j, v) == Reach(f, m, rpos, t, b, j, v)
  {
    hide Reach, Defs, Entering, Cfg.Valid;
    forall v: nat | v != 0
      ensures Entering(f, n, rpos, t, b, v) == Entering(f, m, rpos, t, b, v)
      ensures Defs(f, n, b, i, v) == Defs(f, m, b, i, v)
    {
      SetCodeFrame(f, n, rpos, t, b, i, m.code[b][i], v);
    }
    forall j, v: nat | 0 <= j <= i && v != 0 ensures Reach(f, n, rpos, t, b, j, v) == Reach(f, m, rpos, t, b, j, v) {
      SetCodeFrame(f, n, rpos, t, b, i, m.code[b][i], v);
    }
  }

  lemma EntryStable(f: Func, n: Names, m: Names, rpos: seq<int>, t: seq<int>, b: nat, entry: seq<seq<int>>,
                    was: seq<int>)
    requires Fits(f, n) && Fits(f, m) && TreeFor(f, rpos, t) && In(t, b)
    requires forall v: nat | v != 0 :: Entering(f, n, rpos, t, b, v) == Entering(f, m, rpos, t, b, v)
    requires EntryOk(f, n, rpos, t, b, entry, was)
    ensures EntryOk(f, m, rpos, t, b, entry, was)
  {
    hide Entering;
  }

  // One instruction

  /** After making sure that the operand `v`, if any, has a name. */
  ghost function Ensured(s: Renaming, v: nat): Renaming
    requires v < |s.stacks| == |s.issued| == |s.bottom|
  {
    if v == 0 then s else EnsureTop(s, v)
  }

  ghost function UseName(s: Renaming, v: nat): int
    requires v < |s.stacks| == |s.issued| == |s.bottom|
  {
    if v == 0 || Ensured(s, v).stacks[v] == [] then -1 else Top(Ensured(s, v), v)
  }

  lemma EnsuredKeepsMid(f: Func, s: Renaming, rpos: seq<int>, t: seq<int>, entry: seq<seq<int>>, was: seq<int>, b: nat,
                        i: nat, v: nat)
    requires Mid(f, s, rpos, t, entry, was, b, i) && v < |s.stacks|
    ensures Mid(f, Ensured(s, v), rpos, t, entry, was, b, i)
    ensures UseOk(f, Ensured(s, v), rpos, t, b, i, v, UseName(s, v))
    ensures BottomGrows(s.bottom, Ensured(s, v).bottom) && Grows(s.issued, Ensured(s, v).issued)
  {
    hide EntryOk, StacksAre, Fits, Vregs, Reach, BottomOk, UsesOk, SitesOk;
    if v != 0 {
      EnsureTopKeepsHere(f, s, rpos, t, entry, was, b, i, v);
      UsesStable(f, s, EnsureTop(s, v), rpos, t, b, i);
      SitesStable(f, s, EnsureTop(s, v), b, |f.phis[b]|, i);
    }
  }

  /** A use name found earlier stays right when another operand is made sure of. */
  lemma UseStaysOk(f: Func, s: Renaming, rpos: seq<int>, t: seq<int>, b: nat, i: nat, v: nat, x: int, w: nat)
    requires Shaped(f, s) && w < |s.stacks| && Shaped(f, Ensured(s, w)) && TreeFor(f, rpos, t) && In(t, b)
      && i <= f.Len(b)
    requires v < |s.stacks| && UseOk(f, s, rpos, t, b, i, v, x)
    requires BottomGrows(s.bottom, Ensured(s, w).bottom)
    ensures UseOk(f, Ensured(s, w), rpos, t, b, i, v, x)
  {
    hide Reach, Fits, Vregs;
  }

  /** Push a new subscript of `v`, if there is a destination. */
  ghost function Defined(s: Renaming, v: nat, site: Site): Renaming
    requires v < |s.stacks| == |s.issued|
  {
    if v == 0 then s else Issue(s, v, site)
  }

  ghost function DefName(s: Renaming, v: nat): int
    requires v < |s.issued|
  {
    if v == 0 then -1 else |s.issued[v]|
  }

  /** Give instruction `i` of `b` the source names `a` and `c` and a new destination. */
  ghost function NameInstr(f: Func, s: Renaming, b: nat, i: nat, a: int, c: int): Renaming
    requires Shaped(f, s) && b < |f.phis| && i < f.Len(b)
  {
    var v := f.p.code[b][i].dst;
    Defined(s, v, DefSite(b, i)).(names := SetCode(s.names, b, i, Subs(DefName(s, v), a, c)))
  }

  lemma IssueSound(s: Renaming, v: nat, site: Site)
    requires BottomOk(s) && v < |s.stacks| && site != Undefined
    ensures BottomOk(Issue(s, v, site)) && Grows(s.issued, Issue(s, v, site).issued)
    ensures Issued(Issue(s, v, site), v, |s.issued[v]|, site)
  {
  }

  lemma NameInstrSized(f: Func, s: Renaming, b: nat, i: nat, a: int, c: int)
    requires Shaped(f, s) && b < |f.phis| && i < f.Len(b)
    ensures Shaped(f, NameInstr(f, s, b, i, a, c))
  {
  }

  lemma NameInstrStacks(f: Func, s: Renaming, entry: seq<seq<int>>, b: nat, i: nat, a: int, c: int)
    requires Shaped(f, s) && b < |f.phis| && i < f.Len(b) && |entry| == |s.stacks| && StacksAre(f, s, entry, b, i)
    requires Shaped(f, NameInstr(f, s, b, i, a, c))
    requires forall v: nat | 0 < v < |s.stacks| ::
              Defs(f, s.names, b, i, v) == Defs(f, NameInstr(f, s, b, i, a, c).names, b, i, v)
    ensures StacksAre(f, NameInstr(f, s, b, i, a, c), entry, b, i + 1)
  {
    hide Vregs, Cfg.Valid;
    var u := NameInstr(f, s, b, i, a, c);
    forall v: nat | 0 < v < |entry| ensures u.stacks[v] == Base(entry, u.bottom, v) + Defs(f, u.names, b, i + 1, v) {
      if v == f.p.code[b][i].dst {
        assert s.stacks[v] + [|s.issued[v]|] ==
               Base(entry, s.bottom, v) + (Defs(f, s.names, b, i, v) + [|s.issued[v]|]);
      } else {
        assert Defs(f, u.names, b, i, v) + [] == Defs(f, u.names, b, i, v);
      }
    }
  }

  lemma NameInstrKeepsHere(f: Func, s: Renaming, rpos: seq<int>, t: seq<int>, entry: seq<seq<int>>, was: seq<int>,
                           b: nat, i: nat, a: int, c: int)
    requires Here(f, s, rpos, t, entry, was, b, i) && i < f.Len(b)
    ensures Here(f, NameInstr(f, s, b, i, a, c), rpos, t, entry, was, b, i + 1)
    ensures Grows(s.issued, NameInstr(f, s, b, i, a, c).issued)
  {
    hide EntryOk, StacksAre, Cfg.Valid, Reach, Defs, Entering;
    var u := NameInstr(f, s, b, i, a, c);
    NameInstrSized(f, s, b, i, a, c);
    var v := f.p.code[b][i].dst;
    if v != 0 { IssueSound(s, v, DefSite(b, i)); }
    SetCodeFrameAll(f, s.names, u.names, rpos, t, b, i);
    EntryStable(f, s.names, u.names, rpos, t, b, entry, was);
    NameInstrStacks(f, s, entry, b, i, a, c);
  }

  lemma NameInstrKeepsMid(f: Func, s: Renaming, rpos: seq<int>, t: seq<int>, entry: seq<seq<int>>, was: seq<int>,
                          b: nat, i: nat, a: int, c: int)
    requires Mid(f, s, rpos, t, entry, was, b, i) && i < f.Len(b)
    requires UseOk(f, s, rpos, t, b, i, f.p.code[b][i].src1, a) && UseOk(f, s, rpos, t, b, i, f.p.code[b][i].src2, c)
    ensures Mid(f, NameInstr(f, s, b, i, a, c), rpos, t, entry, was, b, i + 1)
    ensures Grows(s.issued, NameInstr(f, s, b, i, a, c).issued)
  {
    hide EntryOk, StacksAre, Cfg.Valid, Reach, Defs, Entering, BottomOk, Vregs;
    var u := NameInstr(f, s, b, i, a, c);
    NameInstrKeepsHere(f, s, rpos, t, entry, was, b, i, a, c);
    SetCodeFrameAll(f, s.names, u.names, rpos, t, b, i);
    NameInstrUses(f, s, rpos, t, b, i, a, c);
    NameInstrSites(f, s, b, i, a, c);
  }

  lemma NameInstrUses(f: Func, s: Renaming, rpos: seq<int>, t: seq<int>, b: nat, i: nat, a: int, c: int)
    requires Shaped(f, s) && TreeFor(f, rpos, t) && In(t, b) && i < f.Len(b) && Shaped(f, NameInstr(f, s, b, i, a, c))
    requires UsesOk(f, s, rpos, t, b, i)
    requires UseOk(f, s, rpos, t, b, i, f.p.code[b][i].src1, a) && UseOk(f, s, rpos, t, b, i, f.p.code[b][i].src2, c)
    requires forall j, v: nat | 0 <= j <= i && v != 0 ::
               Reach(f, s.names, rpos, t, b, j, v) == Reach(f, NameInstr(f, s, b, i, a, c).names, rpos, t, b, j, v)
    ensures UsesOk(f, NameInstr(f, s, b, i, a, c), rpos, t, b, i + 1)
  {
    hide Reach, Cfg.Valid, Vregs;
  }

  lemma NameInstrSites(f: Func, s: Renaming, b: nat, i: nat, a: int, c: int)
    requires Shaped(f, s) && b < |f.phis| && i < f.Len(b) && Shaped(f, NameInstr(f, s, b, i, a, c))
    requires SitesOk(f, s, b, |f.phis[b]|, i) && Grows(s.issued, NameInstr(f, s, b, i, a, c).issued)
    ensures SitesOk(f, NameInstr(f, s, b, i, a, c), b, |f.phis[b]|, i + 1)
  {
    hide Cfg.Valid;
    SitesStable(f, s, NameInstr(f, s, b, i, a, c), b, |f.phis[b]|, i);
  }
}
