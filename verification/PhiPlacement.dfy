/** Placement of phi functions at iterated dominance frontiers (insert_phi_functions, ssa.c:774-811). */
module PhiPlacement {
  import opened Dominance

  /** The blocks whose set in `phi` holds `v`. */
  ghost function Placed(phi: seq<set<nat>>, v: nat): (s: set<nat>)
    ensures forall d: nat :: d in s <==> d < |phi| && v in phi[d]
  {
    set d: nat | d in AllBlocks(|phi|) && v in phi[d]
  }

  /** `s` holds the frontiers of the defining blocks and of its own members. */
  ghost predicate ClosedUnder(df: seq<set<nat>>, defs: set<nat>, s: set<nat>) {
    forall b, d: nat | b in defs + s && b < |df| && d in df[b] :: d in s
  }

  ghost predicate LeastClosed(df: seq<set<nat>>, defs: set<nat>, s: set<nat>) {
    ClosedUnder(df, defs, s) && forall c | ClosedUnder(df, defs, c) :: s <= c
  }

  ghost predicate Bounded(df: seq<set<nat>>, defs: set<nat>) {
    && (forall b | b in defs :: b < |df|)
    && (forall b, d: nat | 0 <= b < |df| && d in df[b] :: d < |df|)
  }

  /** `placed` is inside every closed set, and only blocks still on the work list, or the first `k` numbers in the
      frontier of `cur`, may be missing their frontiers from it. */
  ghost predicate Working(df: seq<set<nat>>, defs: set<nat>, placed: set<nat>, work: set<nat>, cur: int, k: nat) {
    && (forall c | ClosedUnder(df, defs, c) :: placed <= c)
    && work <= defs + placed
    && (cur == -1 || cur in defs + placed)
    && (forall b, d: nat | b in defs + placed && b !in work && b < |df| && d in df[b] && (b != cur || d < k) ::
        d in placed)
  }

  lemma PlaceAt(df: seq<set<nat>>, defs: set<nat>, placed: set<nat>, work: set<nat>, b: nat, d: nat)
    requires Bounded(df, defs) && Working(df, defs, placed, work, b, d) && b < |df| && d in df[b]
    ensures Working(df, defs, placed + {d}, if d in placed then work else work + {d}, b, d + 1)
  {
    forall c | ClosedUnder(df, defs, c) ensures placed + {d} <= c {
      assert b in defs + c;
    }
  }

  /** Visit the frontier of `b`, placing `v` where it is missing. */
  method PlaceFrontier(df: array<set<nat>>, phi: array<set<nat>>, v: nat, b: nat, work: set<nat>, ghost defs: set<nat>)
    returns (newWork: set<nat>)
    requires df != phi && df.Length == phi.Length && Bounded(df[..], defs) && b < df.Length && b !in work
    requires Working(df[..], defs, Placed(phi[..], v), work, b, 0)
    modifies phi
    ensures Working(df[..], defs, Placed(phi[..], v), newWork, -1, 0)
    ensures Placed(old(phi[..]), v) <= Placed(phi[..], v)
    ensures Placed(old(phi[..]), v) == Placed(phi[..], v) ==> newWork == work
    ensures forall d, u | 0 <= d < phi.Length && u != v :: u in phi[d] <==> u in old(phi[d])
  {
    hide Working;
    ghost var f := df[..];
    newWork := work;
    for d := 0 to df.Length
      invariant df[..] == f && Working(f, defs, Placed(phi[..], v), newWork, b, d)
      invariant Placed(old(phi[..]), v) <= Placed(phi[..], v)
      invariant Placed(old(phi[..]), v) == Placed(phi[..], v) ==> newWork == work
      invariant forall e, u | 0 <= e < phi.Length && u != v :: u in phi[e] <==> u in old(phi[e])
    {
      ghost var was := Placed(phi[..], v);
      if d in df[b] {
        PlaceAt(f, defs, was, newWork, b, d);
        if v !in phi[d] {
          phi[d] := phi[d] + {v};
          newWork := newWork + {d};
          assert Placed(phi[..], v) == was + {d};
        } else {
          assert was + {d} == was;
        }
      } else {
        NotInFrontier(f, defs, was, newWork, b, d);
      }
    }
    FrontierDone(f, defs, Placed(phi[..], v), newWork, b);
  }

  lemma NotInFrontier(df: seq<set<nat>>, defs: set<nat>, placed: set<nat>, work: set<nat>, b: nat, d: nat)
    requires Working(df, defs, placed, work, b, d) && b < |df| && d !in df[b]
    ensures Working(df, defs, placed, work, b, d + 1)
  {
  }

  lemma FrontierDone(df: seq<set<nat>>, defs: set<nat>, placed: set<nat>, work: set<nat>, b: nat)
    requires Bounded(df, defs) && b < |df| && Working(df, defs, placed, work, b, |df|)
    ensures Working(df, defs, placed, work, -1, 0)
  {
  }

  /** The worklist of one variable, from its defining blocks. */
  method PlaceVariable(df: array<set<nat>>, phi: array<set<nat>>, v: nat, defs: set<nat>)
    requires df != phi && df.Length == phi.Length && Bounded(df[..], defs) && Placed(phi[..], v) == {}
    modifies phi
    ensures LeastClosed(df[..], defs, Placed(phi[..], v))
    ensures forall d, u | 0 <= d < phi.Length && u != v :: u in phi[d] <==> u in old(phi[d])
  {
    ghost var f := df[..];
    var work := defs;
    while work != {}
      invariant df[..] == f && Working(f, defs, Placed(phi[..], v), work, -1, 0)
      invariant forall d, u | 0 <= d < phi.Length && u != v :: u in phi[d] <==> u in old(phi[d])
      decreases AllBlocks(phi.Length) - Placed(phi[..], v), work
    {
      hide Working;
      ghost var work0, placed0 := work, Placed(phi[..], v);
      for b := 0 to df.Length
        invariant df[..] == f && Working(f, defs, Placed(phi[..], v), work, -1, 0)
        invariant placed0 <= Placed(phi[..], v)
        invariant placed0 == Placed(phi[..], v) ==> work == set x | x in work0 && x >= b
        invariant forall d, u | 0 <= d < phi.Length && u != v :: u in phi[d] <==> u in old(phi[d])
      {
        if b in work {
          TakeFromWork(f, defs, Placed(phi[..], v), work, b);
          ghost var before := work;
          work := PlaceFrontier(df, phi, v, b, work - {b}, defs);
        }
      }
    }
  }

  lemma TakeFromWork(df: seq<set<nat>>, defs: set<nat>, placed: set<nat>, work: set<nat>, b: nat)
    requires Working(df, defs, placed, work, -1, 0) && b in work
    ensures Working(df, defs, placed, work - {b}, b, 0)
  {
  }

  ghost predicate GlobalsBelow(s: set<nat>, globals: set<nat>, v: nat) {
    forall u: nat | u in s :: u in globals && u < v
  }

  /** Only globals below `v` have been placed. */
  ghost predicate PlacedBelow(phi: seq<set<nat>>, globals: set<nat>, v: nat) {
    forall d: nat | d < |phi| :: GlobalsBelow(phi[d], globals, v)
  }

  lemma OneMorePlaced(was: seq<set<nat>>, now: seq<set<nat>>, globals: set<nat>, v: nat)
    requires PlacedBelow(was, globals, v) && v in globals && |now| == |was|
    requires forall d: nat, u: nat | d < |was| && u != v :: u in now[d] <==> u in was[d]
    ensures PlacedBelow(now, globals, v + 1)
  {
    forall d: nat | d < |now| ensures GlobalsBelow(now[d], globals, v + 1) {
      assert GlobalsBelow(was[d], globals, v);
      forall u: nat | u in now[d] ensures u in globals && u < v + 1 {
        if u != v { assert u in was[d]; }
      }
    }
  }

  lemma NotYetPlaced(phi: seq<set<nat>>, globals: set<nat>, v: nat)
    requires PlacedBelow(phi, globals, v)
    ensures Placed(phi, v) == {}
  {
    forall d: nat | d < |phi| ensures v !in phi[d] { assert GlobalsBelow(phi[d], globals, v); }
  }

  lemma NoMorePlaced(phi: seq<set<nat>>, globals: set<nat>, v: nat)
    requires PlacedBelow(phi, globals, v)
    ensures PlacedBelow(phi, globals, v + 1)
  {
    forall d: nat | d < |phi| ensures GlobalsBelow(phi[d], globals, v + 1) { assert GlobalsBelow(phi[d], globals, v); }
  }

  lemma OnlyGlobals(phi: seq<set<nat>>, globals: set<nat>, v: nat)
    requires PlacedBelow(phi, globals, v)
    ensures forall d: nat, u: nat | d < |phi| && u in phi[d] :: u in globals
  {
    forall d: nat, u: nat | d < |phi| && u in phi[d] ensures u in globals { assert GlobalsBelow(phi[d], globals, v); }
  }

  /** `phi_functions` for all globals: for each, the least set closed under frontiers from its defining blocks. */
  method PlacePhiFunctions(df: array<set<nat>>, globals: set<nat>,
                           varBlocks: seq<set<nat>>) returns (phi: array<set<nat>>)
    requires forall v | v in globals :: v < |varBlocks| && Bounded(df[..], varBlocks[v])
    ensures fresh(phi) && phi.Length == df.Length
    ensures forall v | v in globals :: LeastClosed(df[..], varBlocks[v], Placed(phi[..], v))
    ensures forall d, v | 0 <= d < phi.Length && v in phi[d] :: v in globals
  {
    hide LeastClosed, Bounded;
    ghost var f := df[..];
    phi := new set<nat>[df.Length](_ => {});
    assert PlacedBelow(phi[..], globals, 0) by {
      forall d: nat | d < phi.Length ensures GlobalsBelow(phi[..][d], globals, 0) {}
    }
    hide PlacedBelow;
    for v := 0 to |varBlocks|
      invariant df[..] == f
      invariant forall u | u in globals && u < v :: LeastClosed(f, varBlocks[u], Placed(phi[..], u))
      invariant PlacedBelow(phi[..], globals, v)
    {
      if v in globals {
        ghost var was := phi[..];
        NotYetPlaced(was, globals, v);
        PlaceVariable(df, phi, v, varBlocks[v]);
        OneMorePlaced(was, phi[..], globals, v);
        forall u | u in globals && u < v ensures Placed(phi[..], u) == Placed(was, u) {
          SamePlaces(was, phi[..], u);
        }
      } else {
        NoMorePlaced(phi[..], globals, v);
      }
    }
    OnlyGlobals(phi[..], globals, |varBlocks|);
    assert forall d | 0 <= d < phi.Length :: phi[..][d] == phi[d];
  }

  lemma SamePlaces(p: seq<set<nat>>, q: seq<set<nat>>, u: nat)
    requires |p| == |q| && forall d | 0 <= d < |p| :: u in p[d] <==> u in q[d]
    ensures Placed(p, u) == Placed(q, u)
  {
  }

  ghost predicate FrontierStep(df: seq<set<nat>>, a: nat, b: nat) {
    a < |df| && b in df[a]
  }

  /** A chain of blocks from `c[0]`, each in the frontier of the one before. */
  ghost predicate FrontierChain(df: seq<set<nat>>, c: seq<nat>) {
    1 < |c| && forall i | 0 < i < |c| :: FrontierStep(df, c[i - 1], c[i])
  }

  ghost predicate IteratedFrontier(df: seq<set<nat>>, defs: set<nat>, d: nat) {
    exists c :: FrontierChain(df, c) && c[0] in defs && c[|c| - 1] == d
  }

  /** The least closed set is the iterated frontier: what chains of one or more frontier steps reach. */
  lemma LeastClosedIsIterated(df: seq<set<nat>>, defs: set<nat>, s: set<nat>, d: nat)
    requires Bounded(df, defs) && LeastClosed(df, defs, s)
    ensures d in s <==> IteratedFrontier(df, defs, d)
  {
    var all := set x | x in s && IteratedFrontier(df, defs, x);
    forall b, e: nat | b in defs + all && b < |df| && e in df[b] ensures e in all {
      if b in all {
        var c :| FrontierChain(df, c) && c[0] in defs && c[|c| - 1] == b;
        ChainExtends(df, c, e);
        assert (c + [e])[0] in defs && (c + [e])[|c|] == e;
      } else {
        assert FrontierChain(df, [b, e]) && [b, e][0] in defs;
      }
    }
    assert ClosedUnder(df, defs, all);
    if IteratedFrontier(df, defs, d) {
      var c :| FrontierChain(df, c) && c[0] in defs && c[|c| - 1] == d;
      ChainStaysIn(df, defs, s, c, |c| - 1);
    }
  }

  lemma ChainExtends(df: seq<set<nat>>, c: seq<nat>, e: nat)
    requires FrontierChain(df, c) && c[|c| - 1] < |df| && e in df[c[|c| - 1]]
    ensures FrontierChain(df, c + [e])
  {
    var w := c + [e];
    forall i | 0 < i < |w| ensures FrontierStep(df, w[i - 1], w[i]) {
      if i < |c| { assert w[i] == c[i] && w[i - 1] == c[i - 1]; }
    }
  }

  lemma {:induction false} ChainStaysIn(df: seq<set<nat>>, defs: set<nat>, s: set<nat>, c: seq<nat>, k: nat)
    requires FrontierChain(df, c) && c[0] in defs && ClosedUnder(df, defs, s) && 0 < k < |c|
    ensures c[k] in s
  {
    assert FrontierStep(df, c[k - 1], c[k]);
    if k > 1 { ChainStaysIn(df, defs, s, c, k - 1); }
    assert c[k - 1] in defs + s;
  }
}
