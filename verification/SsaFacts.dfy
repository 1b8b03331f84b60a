/** What renaming achieves for definitions, uses and phi slots (ssa.c:868-1030). */
module SsaFacts {
  import opened Cfgs
  import opened DomTree
  import opened Idom
  import opened Ir
  import opened SsaNames
  import opened RenameState
  import opened RenameBlock
  import opened RenameEdges
  import opened RenameTree
  import opened Rename
  import opened Basics

  /** The definition at `site` gives `v` the subscript `x`. */
  ghost predicate DefinedAt(f: Func, n: Names, site: Site, v: nat, x: int)
    requires Fits(f, n)
  {
    match site
    case PhiSite(b, k) => b < |f.phis| && k < |f.phis[b]| && f.phis[b][k] == v && n.phi[b][k] == x
    case DefSite(b, i) => b < |f.phis| && i < f.Len(b) && v != 0 && f.p.code[b][i].dst == v && n.code[b][i].dst == x
    case Undefined => false
  }

  ghost predicate SiteIn(site: Site, b: nat) {
    (site.PhiSite? && site.b == b) || (site.DefSite? && site.b == b)
  }

  /** No two definitions in reachable blocks have the same vreg and subscript. */
  lemma DefinitionsAreDistinct(f: Func, s: Renaming, rpos: seq<int>, t: seq<int>, a: Site, b: nat, c: Site, d: nat,
                               v: nat, x: int)
    requires Renamed(f, s, rpos, t) && In(t, b) && In(t, d) && SiteIn(a, b) && SiteIn(c, d)
    requires DefinedAt(f, s.names, a, v, x) && DefinedAt(f, s.names, c, v, x)
    ensures a == c && x != s.bottom[v]
  {
    hide Cfg.Valid, Vregs, AllArgsOk, UsesOk, EdgesFilled;
    SiteIssued(f, s, rpos, t, a, b, v, x);
    SiteIssued(f, s, rpos, t, c, d, v, x);
  }

  lemma SiteIssued(f: Func, s: Renaming, rpos: seq<int>, t: seq<int>, a: Site, b: nat, v: nat, x: int)
    requires Renamed(f, s, rpos, t) && In(t, b) && SiteIn(a, b) && DefinedAt(f, s.names, a, v, x)
    ensures Issued(s, v, x, a)
  {
    hide Cfg.Valid, Vregs, AllArgsOk, UsesOk, EdgesFilled;
    assert Finished(f, s, rpos, t, b);
    assert SitesOk(f, s, b, |f.phis[b]|, f.Len(b));
  }

  lemma {:induction false} PhiDefIsDefined(f: Func, n: Names, b: nat, k: nat, v: nat, x: int)
    requires Fits(f, n) && b < |f.phis| && k <= |f.phis[b]| && x in PhiDefs(f, n, b, k, v)
    ensures exists j :: 0 <= j < k && DefinedAt(f, n, PhiSite(b, j), v, x)
  {
    hide Cfg.Valid;
    if x in PhiDefs(f, n, b, k - 1, v) {
      PhiDefIsDefined(f, n, b, k - 1, v, x);
    } else {
      assert DefinedAt(f, n, PhiSite(b, k - 1), v, x);
    }
  }

  /** Everything on the list of definitions of `v` in a block before instruction `i` is defined there. */
  lemma {:induction false} DefIsDefined(f: Func, n: Names, b: nat, i: nat, v: nat, x: int) returns (site: Site)
    requires Fits(f, n) && b < |f.phis| && i <= f.Len(b) && v != 0 && x in Defs(f, n, b, i, v)
    ensures SiteIn(site, b) && DefinedAt(f, n, site, v, x) && (site.DefSite? ==> site.i < i)
  {
    hide Cfg.Valid;
    if i == 0 {
      PhiDefIsDefined(f, n, b, |f.phis[b]|, v, x);
      var j :| 0 <= j < |f.phis[b]| && DefinedAt(f, n, PhiSite(b, j), v, x);
      site := PhiSite(b, j);
    } else if x in Defs(f, n, b, i - 1, v) {
      site := DefIsDefined(f, n, b, i - 1, v, x);
    } else {
      site := DefSite(b, i - 1);
    }
  }

  /** A name that reaches a point is defined in a block that dominates the point. */
  lemma {:induction false} ReachIsDefined(f: Func, n: Names, rpos: seq<int>, t: seq<int>, b: nat, i: nat, v: nat,
                                          x: int)
    returns (site: Site, d: nat)
    requires Fits(f, n) && TreeFor(f, rpos, t) && In(t, b) && i <= f.Len(b) && v != 0
    requires Reach(f, n, rpos, t, b, i, v) == Some(x)
    ensures In(t, d) && Anc(rpos, t, d, b) && SiteIn(site, d) && DefinedAt(f, n, site, v, x)
    ensures d == b && site.DefSite? ==> site.i < i
    decreases rpos[b]
  {
    hide Cfg.Valid;
    if Defs(f, n, b, i, v) != [] {
      d := b;
      site := DefIsDefined(f, n, b, i, v, x);
    } else {
      site, d := ReachIsDefined(f, n, rpos, t, t[b], f.Len(t[b]), v, x);
      AncRank(rpos, t, d, t[b]);
    }
  }

  /** The name of a source operand: of a definition that dominates the use, or the one bottom entry of its vreg. */
  lemma UseNamesDominator(g: Cfg, f: Func, s: Renaming, rpos: seq<int>, t: seq<int>, b: nat, i: nat, v: nat, x: int)
    requires Renamed(f, s, rpos, t) && DominatorTree(g, rpos, t) && f.p.g == g && In(t, b) && i < f.Len(b) && v != 0
    requires (v == f.p.code[b][i].src1 && x == s.names.code[b][i].src1) ||
             (v == f.p.code[b][i].src2 && x == s.names.code[b][i].src2)
    ensures v < |s.bottom| && x != -1
    ensures x == s.bottom[v] || exists site, d: nat ::
              Dominates(g, d, b) && SiteIn(site, d) && DefinedAt(f, s.names, site, v, x)
  {
    hide Cfg.Valid, AllArgsOk, SitesOk, EdgesFilled, Dominates, Reachable, DefinedAt;
    assert Finished(f, s, rpos, t, b);
    assert UseOk(f, s, rpos, t, b, i, v, x);
    if Reach(f, s.names, rpos, t, b, i, v) != None {
      var site, d := ReachIsDefined(f, s.names, rpos, t, b, i, v, x);
      assert Dominates(g, d, b) && SiteIn(site, d) && DefinedAt(f, s.names, site, v, x);
    }
  }

  /** The in-edges of `d` from reachable blocks, with multiplicity. */
  ghost function ReachableEdges(t: seq<int>, pred: seq<nat>): multiset<nat> {
    if pred == [] then multiset{}
    else ReachableEdges(t, pred[1..]) + (if In(t, pred[0]) then multiset{pred[0]} else multiset{})
  }

  lemma {:induction false} ReachableEdgeCount(t: seq<int>, pred: seq<nat>, x: nat)
    ensures ReachableEdges(t, pred)[x] == if In(t, x) then multiset(pred)[x] else 0
  {
    if pred != [] {
      ReachableEdgeCount(t, pred[1..], x);
      assert pred == [pred[0]] + pred[1..];
      assert multiset(pred) == multiset{pred[0]} + multiset(pred[1..]);
    }
  }

  /** The slots of the phi functions of `d` were filled once for every edge from a reachable block, in one common order;
      the slots left over, one per edge from an unreachable block, stay empty. */
  lemma SlotsPerEdge(f: Func, s: Renaming, rpos: seq<int>, t: seq<int>, d: nat)
    requires Renamed(f, s, rpos, t) && d < |f.phis| && f.phis[d] != []
    ensures multiset(s.sources[d]) == ReachableEdges(t, f.p.g.pred[d])
    ensures forall k | 0 <= k < |f.phis[d]| ::
              SlotsOk(f, s, rpos, t, d, f.phis[d][k], s.args[d][k], s.sources[d]) && |s.args[d][k]| == |f.p.g.pred[d]|
  {
    hide BlockOk, SlotsOk;
    assert ArgsOk(f, s, rpos, t, d);
    forall x: nat ensures multiset(s.sources[d])[x] == ReachableEdges(t, f.p.g.pred[d])[x] {
      ReachableEdgeCount(t, f.p.g.pred[d], x);
      SourceCount(f, s, rpos, t, d, x);
    }
  }

  lemma SourceCount(f: Func, s: Renaming, rpos: seq<int>, t: seq<int>, d: nat, x: nat)
    requires Renamed(f, s, rpos, t) && d < |f.phis| && f.phis[d] != []
    ensures multiset(s.sources[d])[x] == if In(t, x) then multiset(f.p.g.pred[d])[x] else 0
  {
    hide BlockOk, NameAt;
    assert ArgsOk(f, s, rpos, t, d);
    if In(t, x) {
      assert Finished(f, s, rpos, t, x);
      assert multiset(s.sources[d])[x] == multiset(f.p.g.succ[x])[d];
    } else {
      assert SlotsOk(f, s, rpos, t, d, f.phis[d][0], s.args[d][0], s.sources[d]);
      assert x !in s.sources[d];
    }
  }
}
