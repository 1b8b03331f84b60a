/** Naming phi destinations, filling phi slots in successors, and popping a block's definitions (ssa.c:923-934,
    961-985, 995-1004). An edge fills the first empty slot of every phi function of its target. The blocks whose
    edges have filled slots so far are recorded in order, so that each slot can be traced to the edge that filled it. */
module RenameEdges {
  import opened Cfgs
  import opened DomTree
  import opened Ir
  import opened SsaNames
  import opened RenameState
  import opened RenameBlock

  // Phi destinations

  ghost predicate PhiStacks(f: Func, s: Renaming, entry: seq<seq<int>>, b: nat, k: nat)
    requires Shaped(f, s) && b < |f.phis| && k <= |f.phis[b]|
  {
    && |entry| == |s.stacks|
    && forall v: nat | 0 < v < |entry| :: s.stacks[v] == Base(entry, s.bottom, v) + PhiDefs(f, s.names, b, k, v)
  }

  /** In block `b` with its first `k` phi destinations named. */
  ghost predicate PhiMid(f: Func, s: Renaming, rpos: seq<int>, t: seq<int>, entry: seq<seq<int>>, was: seq<int>,
                         b: nat, k: nat) {
    && Shaped(f, s) && TreeFor(f, rpos, t) && In(t, b) && k <= |f.phis[b]| && |entry| == |s.stacks|
    && EntryOk(f, s.names, rpos, t, b, entry, was) && BottomGrows(was, s.bottom)
    && KeepsBottom(entry, was, s.bottom) && PhiStacks(f, s, entry, b, k) && BottomOk(s) && SitesOk(f, s, b, k, 0)
  }

  ghost function NamePhi(f: Func, s: Renaming, b: nat, k: nat): Renaming
    requires Shaped(f, s) && b < |f.phis| && k < |f.phis[b]|
  {
    var v := f.phis[b][k];
    Issue(s, v, PhiSite(b, k)).(names := SetPhi(s.names, b, k, |s.issued[v]|))
  }

  lemma NamePhiSized(f: Func, s: Renaming, b: nat, k: nat)
    requires Shaped(f, s) && b < |f.phis| && k < |f.phis[b]|
    ensures Shaped(f, NamePhi(f, s, b, k))
  {
    hide Cfg.Valid;
  }

  lemma NamePhiStacks(f: Func, s: Renaming, entry: seq<seq<int>>, b: nat, k: nat)
    requires Shaped(f, s)
      && b < |f.phis| && k < |f.phis[b]| && PhiStacks(f, s, entry, b, k) && Shaped(f, NamePhi(f, s, b, k))
    ensures PhiStacks(f, NamePhi(f, s, b, k), entry, b, k + 1)
  {
    hide Vregs, Cfg.Valid;
    var u := NamePhi(f, s, b, k);
    forall v: nat | 0 < v < |entry| ensures u.stacks[v] == Base(entry, u.bottom, v) + PhiDefs(f, u.names, b, k + 1, v) {
      PhiDefsFrame(f, s.names, u.names, b, k, v);
      if v == f.phis[b][k] {
        assert s.stacks[v] + [|s.issued[v]|] ==
               Base(entry, s.bottom, v) + (PhiDefs(f, s.names, b, k, v) + [|s.issued[v]|]);
      } else {
        assert PhiDefs(f, u.names, b, k, v) + [] == PhiDefs(f, u.names, b, k, v);
      }
    }
  }

  lemma NamePhiSites(f: Func, s: Renaming, b: nat, k: nat)
    requires Shaped(f, s) && b < |f.phis| && k < |f.phis[b]| && Shaped(f, NamePhi(f, s, b, k))
    requires SitesOk(f, s, b, k, 0) && BottomOk(s)
    ensures SitesOk(f, NamePhi(f, s, b, k), b, k + 1, 0) && BottomOk(NamePhi(f, s, b, k))
    ensures Grows(s.issued, NamePhi(f, s, b, k).issued)
  {
    hide Cfg.Valid;
    var u := NamePhi(f, s, b, k);
    IssueSound(s, f.phis[b][k], PhiSite(b, k));
    SitesStable(f, s, u, b, k, 0);
  }

  lemma NamePhiKeepsMid(f: Func, s: Renaming, rpos: seq<int>, t: seq<int>, entry: seq<seq<int>>, was: seq<int>, b: nat,
                        k: nat)
    requires PhiMid(f, s, rpos, t, entry, was, b, k) && k < |f.phis[b]|
    ensures PhiMid(f, NamePhi(f, s, b, k), rpos, t, entry, was, b, k + 1)
    ensures Grows(s.issued, NamePhi(f, s, b, k).issued)
  {
    hide EntryOk, PhiStacks, SitesOk, BottomOk, Cfg.Valid, Entering;
    var u := NamePhi(f, s, b, k);
    NamePhiSized(f, s, b, k);
    NamePhiStacks(f, s, entry, b, k);
    NamePhiSites(f, s, b, k);
    forall v: nat | v != 0 ensures Entering(f, s.names, rpos, t, b, v) == Entering(f, u.names, rpos, t, b, v) {
      EnteringFrame(f, s.names, u.names, rpos, t, b, v);
    }
    EntryStable(f, s.names, u.names, rpos, t, b, entry, was);
  }

  lemma PhisDone(f: Func, s: Renaming, rpos: seq<int>, t: seq<int>, entry: seq<seq<int>>, was: seq<int>, b: nat)
    requires b < |f.phis| && PhiMid(f, s, rpos, t, entry, was, b, |f.phis[b]|)
    ensures Mid(f, s, rpos, t, entry, was, b, 0)
  {
    hide EntryOk, Cfg.Valid, SitesOk, Vregs;
  }

  // Slots in the successors

  lemma SlotsStable(f: Func, s: Renaming, u: Renaming, rpos: seq<int>, t: seq<int>, d: nat, v: nat, slots: seq<int>,
                    filled: seq<nat>)
    requires Shaped(f, s) && Shaped(f, u) && TreeFor(f, rpos, t) && 0 < v < |s.bottom|
      && BottomGrows(s.bottom, u.bottom)
    requires forall x | x in filled && In(t, x) ::
               Reach(f, s.names, rpos, t, x, f.Len(x), v) == Reach(f, u.names, rpos, t, x, f.Len(x), v)
    requires SlotsOk(f, s, rpos, t, d, v, slots, filled)
    ensures SlotsOk(f, u, rpos, t, d, v, slots, filled)
  {
    hide Reach, Cfg.Valid, Vregs;
  }

  /** Phi slots stay right while bottoms are added and names at the ends of the blocks that filled them stay. */
  lemma ArgsStable(f: Func, s: Renaming, u: Renaming, rpos: seq<int>, t: seq<int>)
    requires Shaped(f, s) && Shaped(f, u) && TreeFor(f, rpos, t) && BottomGrows(s.bottom, u.bottom)
    requires u.args == s.args && u.sources == s.sources && AllArgsOk(f, s, rpos, t)
    requires forall d, x, v: nat | 0 <= d < |s.sources| && x in s.sources[d] && In(t, x) && v != 0 ::
               Reach(f, s.names, rpos, t, x, f.Len(x), v) == Reach(f, u.names, rpos, t, x, f.Len(x), v)
    ensures AllArgsOk(f, u, rpos, t)
  {
    hide Reach, Cfg.Valid, SlotsOk;
    forall d: nat | d < |f.phis| ensures ArgsOk(f, u, rpos, t, d) {
      assert ArgsOk(f, s, rpos, t, d);
      forall k | 0 <= k < |f.phis[d]| ensures SlotsOk(f, u, rpos, t, d, f.phis[d][k], u.args[d][k], u.sources[d]) {
        SlotsStable(f, s, u, rpos, t, d, f.phis[d][k], s.args[d][k], s.sources[d]);
      }
    }
  }

  ghost function SetSlot(args: seq<seq<seq<int>>>, d: nat, k: nat, j: nat, x: int): seq<seq<seq<int>>>
    requires d < |args| && k < |args[d]| && j < |args[d][k]|
  {
    args[d := args[d][k := args[d][k][j := x]]]
  }

  /** The edge from `b` to `d` has filled a slot of the first `k` phi functions of `d`. */
  ghost predicate PartFilled(f: Func, s: Renaming, rpos: seq<int>, t: seq<int>, b: nat, d: nat, k: nat)
    requires Shaped(f, s) && TreeFor(f, rpos, t) && d < |f.phis| && k <= |f.phis[d]|
  {
    && (forall e: nat | e < |f.phis| && e != d :: ArgsOk(f, s, rpos, t, e))
    && multiset(s.sources[d] + [b]) <= multiset(f.p.g.pred[d])
    && (forall l | 0 <= l < |f.phis[d]| ::
          SlotsOk(f, s, rpos, t, d, f.phis[d][l], s.args[d][l], if l < k then s.sources[d] + [b] else s.sources[d]))
  }

  lemma SubMultisetLength<T>(a: seq<T>, b: seq<T>)
    requires multiset(a) <= multiset(b)
    ensures |a| <= |b|
  {
    assert multiset(b) == multiset(a) + (multiset(b) - multiset(a));
    assert |multiset(b)| == |multiset(a)| + |multiset(b) - multiset(a)|;
  }

  /** The number of slots filled by the first `e` edges of `b`. */
  ghost predicate EdgeCount(f: Func, s: Renaming, b: nat, e: nat)
    requires Shaped(f, s) && b < |f.phis| && e <= |f.p.g.succ[b]|
  {
    forall d | 0 <= d < |f.phis| :: multiset(s.sources[d])[b] == multiset(f.p.g.succ[b][..e])[d]
  }

  lemma RoomForEdge(f: Func, s: Renaming, b: nat, e: nat, d: nat)
    requires Shaped(f, s) && b < |f.phis| && e < |f.p.g.succ[b]| && d == f.p.g.succ[b][e] && d < |f.phis|
    requires EdgeCount(f, s, b, e) && multiset(s.sources[d]) <= multiset(f.p.g.pred[d])
    ensures multiset(s.sources[d] + [b]) <= multiset(f.p.g.pred[d])
  {
    var out := f.p.g.succ[b];
    assert out == out[..e] + out[e..];
    assert multiset(out) == multiset(out[..e]) + multiset(out[e..]);
    assert d in multiset(out[e..]) by { assert out[e..][0] == d; }
    assert multiset(out)[d] == multiset(f.p.g.pred[d])[b];
  }

  lemma EdgeBegins(f: Func, s: Renaming, rpos: seq<int>, t: seq<int>, b: nat, e: nat, d: nat)
    requires Shaped(f, s) && TreeFor(f, rpos, t) && AllArgsOk(f, s, rpos, t)
    requires b < |f.phis| && e < |f.p.g.succ[b]| && d == f.p.g.succ[b][e] && d < |f.phis| && EdgeCount(f, s, b, e)
    ensures PartFilled(f, s, rpos, t, b, d, 0)
  {
    hide SlotsOk, EdgeCount;
    assert ArgsOk(f, s, rpos, t, d);
    RoomForEdge(f, s, b, e, d);
  }

  lemma EdgeEnds(f: Func, s: Renaming, u: Renaming, rpos: seq<int>, t: seq<int>, b: nat, e: nat, d: nat)
    requires Shaped(f, s) && TreeFor(f, rpos, t) && d < |f.phis| && PartFilled(f, s, rpos, t, b, d, |f.phis[d]|)
    requires b < |f.phis| && e < |f.p.g.succ[b]| && d == f.p.g.succ[b][e] && EdgeCount(f, s, b, e)
    requires u == s.(sources := s.sources[d := s.sources[d] + [b]])
    ensures Shaped(f, u) && AllArgsOk(f, u, rpos, t) && EdgeCount(f, u, b, e + 1)
  {
    EdgeEndsArgs(f, s, u, rpos, t, b, d);
    var out := f.p.g.succ[b];
    assert out[..e + 1] == out[..e] + [d];
    forall c | 0 <= c < |f.phis| ensures multiset(u.sources[c])[b] == multiset(out[..e + 1])[c] {
      assert multiset(s.sources[c])[b] == multiset(out[..e])[c];
    }
  }

  lemma EdgeEndsArgs(f: Func, s: Renaming, u: Renaming, rpos: seq<int>, t: seq<int>, b: nat, d: nat)
    requires Shaped(f, s) && TreeFor(f, rpos, t) && d < |f.phis| && PartFilled(f, s, rpos, t, b, d, |f.phis[d]|)
    requires u == s.(sources := s.sources[d := s.sources[d] + [b]])
    ensures Shaped(f, u) && AllArgsOk(f, u, rpos, t)
  {
    hide Cfg.Valid, Reach;
    forall c: nat | c < |f.phis| ensures ArgsOk(f, u, rpos, t, c) {
      if c != d { assert ArgsOk(f, s, rpos, t, c); }
    }
  }

  /** Fill the next slot of phi function `k` of `d` from the end of block `b`. */
  ghost function FillSlot(f: Func, s: Renaming, d: nat, k: nat): Renaming
    requires Shaped(f, s) && d < |f.phis| && k < |f.phis[d]| && |s.sources[d]| < |s.args[d][k]|
    requires EnsureTop(s, f.phis[d][k]).stacks[f.phis[d][k]] != []
  {
    var u := EnsureTop(s, f.phis[d][k]);
    u.(args := SetSlot(s.args, d, k, |s.sources[d]|, Top(u, f.phis[d][k])))
  }

  lemma SlotIsNext(f: Func, s: Renaming, rpos: seq<int>, t: seq<int>, b: nat, d: nat, k: nat)
    requires Shaped(f, s) && TreeFor(f, rpos, t) && d < |f.phis| && k < |f.phis[d]|
      && PartFilled(f, s, rpos, t, b, d, k)
    ensures |s.sources[d]| < |s.args[d][k]|
    ensures forall j | 0 <= j < |s.args[d][k]| :: s.args[d][k][j] == -1 <==> |s.sources[d]| <= j
  {
    hide Reach;
    SubMultisetLength(s.sources[d] + [b], f.p.g.pred[d]);
    assert SlotsOk(f, s, rpos, t, d, f.phis[d][k], s.args[d][k], s.sources[d]);
  }

  lemma FillSlotSized(f: Func, s: Renaming, d: nat, k: nat)
    requires Shaped(f, s) && d < |f.phis| && k < |f.phis[d]| && |s.sources[d]| < |s.args[d][k]|
    requires EnsureTop(s, f.phis[d][k]).stacks[f.phis[d][k]] != []
    ensures Shaped(f, FillSlot(f, s, d, k))
  {
    hide Cfg.Valid;
  }

  lemma OtherBlocksStable(f: Func, s: Renaming, u: Renaming, rpos: seq<int>, t: seq<int>, d: nat, e: nat)
    requires Shaped(f, s) && Shaped(f, u) && TreeFor(f, rpos, t) && e < |f.phis| && e != d
    requires ArgsOk(f, s, rpos, t, e) && u.args[e] == s.args[e] && u.sources == s.sources
    requires BottomGrows(s.bottom, u.bottom) && u.names == s.names
    ensures ArgsOk(f, u, rpos, t, e)
  {
    hide Cfg.Valid, Reach, SlotsOk;
    forall l | 0 <= l < |f.phis[e]| ensures SlotsOk(f, u, rpos, t, e, f.phis[e][l], u.args[e][l], u.sources[e]) {
      SlotsStable(f, s, u, rpos, t, e, f.phis[e][l], s.args[e][l], s.sources[e]);
    }
  }

  lemma SlotsExtended(f: Func, u: Renaming, rpos: seq<int>, t: seq<int>, d: nat, v: nat, slots: seq<int>,
                      filled: seq<nat>, b: nat, x: int)
    requires Shaped(f, u) && TreeFor(f, rpos, t) && 0 < v < |u.bottom| && In(t, b)
    requires SlotsOk(f, u, rpos, t, d, v, slots, filled) && |filled| < |slots|
    requires x != -1 && x == NameAt(f, u.names, rpos, t, u.bottom, b, f.Len(b), v)
    ensures SlotsOk(f, u, rpos, t, d, v, slots[|filled| := x], filled + [b])
  {
    hide Cfg.Valid, Reach, Vregs;
  }

  lemma FillSlotArgs(f: Func, s: Renaming, u: Renaming, rpos: seq<int>, t: seq<int>, b: nat, d: nat, k: nat, x: int)
    requires Shaped(f, s) && Shaped(f, u) && TreeFor(f, rpos, t) && d < |f.phis| && k < |f.phis[d]| && In(t, b)
    requires PartFilled(f, s, rpos, t, b, d, k) && |s.sources[d]| < |s.args[d][k]| && u.sources == s.sources
    requires BottomGrows(s.bottom, u.bottom) && u.names == s.names
    requires x != -1 && x == NameAt(f, u.names, rpos, t, u.bottom, b, f.Len(b), f.phis[d][k])
    requires u.args == SetSlot(s.args, d, k, |s.sources[d]|, x)
    ensures PartFilled(f, u, rpos, t, b, d, k + 1)
  {
    hide Cfg.Valid, Reach, SlotsOk, ArgsOk, NameAt;
    forall e: nat | e < |f.phis| && e != d ensures ArgsOk(f, u, rpos, t, e) {
      OtherBlocksStable(f, s, u, rpos, t, d, e);
    }
    forall l | 0 <= l < |f.phis[d]|
      ensures var sources := if l < k + 1 then u.sources[d] + [b] else u.sources[d];
        SlotsOk(f, u, rpos, t, d, f.phis[d][l], u.args[d][l], sources)
    {
      SlotsStable(f, s, u, rpos, t, d, f.phis[d][l], s.args[d][l], if l < k then s.sources[d] + [b] else s.sources[d]);
      if l == k { SlotsExtended(f, u, rpos, t, d, f.phis[d][l], s.args[d][l], s.sources[d], b, x); }
    }
  }

  lemma FillSlotKeeps(f: Func, s: Renaming, rpos: seq<int>, t: seq<int>, entry: seq<seq<int>>, was: seq<int>, b: nat,
                      d: nat, k: nat)
    requires b < |f.p.code| && Here(f, s, rpos, t, entry, was, b, f.Len(b)) && d < |f.phis| && k < |f.phis[d]|
    requires PartFilled(f, s, rpos, t, b, d, k)
    ensures |s.sources[d]| < |s.args[d][k]| && EnsureTop(s, f.phis[d][k]).stacks[f.phis[d][k]] != []
    ensures var u := FillSlot(f, s, d, k);
      && Here(f, u, rpos, t, entry, was, b, f.Len(b)) && PartFilled(f, u, rpos, t, b, d, k + 1)
      && BottomGrows(s.bottom, u.bottom) && Grows(s.issued, u.issued)
  {
    hide Cfg.Valid, Reach, EntryOk, StacksAre, BottomOk, PartFilled, Defs, Entering;
    var v := f.phis[d][k];
    SlotIsNext(f, s, rpos, t, b, d, k);
    EnsureTopKeepsHere(f, s, rpos, t, entry, was, b, f.Len(b), v);
    FillSlotSized(f, s, d, k);
    var w, u := EnsureTop(s, v), FillSlot(f, s, d, k);
    FillSlotArgs(f, s, u, rpos, t, b, d, k, Top(w, v));
    ArgsAreNotHere(f, w, u, rpos, t, entry, was, b, f.Len(b));
  }

  /** What is known in a block does not depend on the phi slots. */
  lemma ArgsAreNotHere(f: Func, s: Renaming, u: Renaming, rpos: seq<int>, t: seq<int>, entry: seq<seq<int>>,
                       was: seq<int>, b: nat, i: nat)
    requires Here(f, s, rpos, t, entry, was, b, i) && Shaped(f, u)
    requires u == s.(args := u.args, sources := u.sources)
    ensures Here(f, u, rpos, t, entry, was, b, i)
  {
    hide Cfg.Valid, Reach, Vregs, Defs, Entering;
  }
}
