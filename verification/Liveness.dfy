/** Liveness by version-cached iteration (ssa.c:535-684). */
module Liveness {
  import opened Cfgs
  import opened Dominance
  import opened Ir
  import opened LocalUse

  /** Uses before definitions, and definitions, of every block. */
  datatype Facts = Facts(g: Cfg, uevar: seq<set<nat>>, varkill: seq<set<nat>>) {
    ghost predicate Valid() {
      && g.Valid() && |uevar| == |varkill| == |g.succ|
      && forall b, j | 0 <= b < |g.succ| && 0 <= j < |g.succ[b]| :: g.succ[b][j] < |g.succ|
    }
  }

  ghost predicate FactsOf(p: Program, f: Facts) {
    p.Valid() && f.g == p.g && f.Valid() && forall b: nat | b < |p.code| :: BlockFacts(p, b, f.uevar[b], f.varkill[b])
  }

  ghost predicate BlockFacts(p: Program, b: nat, use: set<nat>, kill: set<nat>)
    requires b < |p.code|
  {
    forall v: nat :: (v in use <==> Exposed(p, b, v)) && (v in kill <==> v != 0 && Writes(p, b, v))
  }

  lemma SuccInRange(g: Cfg)
    requires g.Valid()
    ensures forall b, j | 0 <= b < |g.succ| && 0 <= j < |g.succ[b]| :: g.succ[b][j] < |g.succ|
  {
    forall b, j | 0 <= b < |g.succ| && 0 <= j < |g.succ[b]|
      ensures g.succ[b][j] < |g.succ|
    {
      assert g.succ[b][j] in g.succ[b];
    }
  }

  /** `w` leaves `b` and ends in a block that uses `v` before defining it, and no block on the way there defines `v`. */
  ghost predicate LiveAlong(f: Facts, w: seq<nat>, b: nat, v: nat)
    requires f.Valid()
  {
    && IsPath(f.g, w) && f.g.Edge(b, w[0]) && v in f.uevar[w[|w| - 1]]
    && forall i | 0 <= i < |w| - 1 :: v !in f.varkill[w[i]]
  }

  /** Some path from the end of `b` reaches a use of `v` before any definition of it. */
  ghost predicate LiveOut(f: Facts, b: nat, v: nat)
    requires f.Valid()
  {
    exists w :: LiveAlong(f, w, b, v)
  }

  /** What the successor `s` contributes. */
  ghost predicate Through(f: Facts, live: seq<set<nat>>, s: nat, v: nat)
    requires f.Valid() && |live| == |f.g.succ|
  {
    s < |live| && (v in f.uevar[s] || (v in live[s] && v !in f.varkill[s]))
  }

  ghost predicate ThroughSome(f: Facts, live: seq<set<nat>>, b: nat, v: nat)
    requires f.Valid() && |live| == |f.g.succ| && b < |live|
  {
    exists s :: s in f.g.succ[b] && Through(f, live, s, v)
  }

  ghost predicate Satisfies(f: Facts, live: seq<set<nat>>, b: nat)
    requires f.Valid() && |live| == |f.g.succ| && b < |live|
  {
    forall v: nat :: v in live[b] <==> ThroughSome(f, live, b, v)
  }

  ghost predicate Solves(f: Facts, live: seq<set<nat>>) {
    f.Valid() && |live| == |f.g.succ| && forall b: nat | b < |live| :: Satisfies(f, live, b)
  }

  // The paths give the least solution

  lemma LiveBySuccessor(f: Facts, live: seq<set<nat>>, b: nat, s: nat, v: nat)
    requires f.Valid() && |live| == |f.g.succ| && b < |live| && s in f.g.succ[b] && Through(f, live, s, v)
    requires v in live[s] ==> LiveOut(f, s, v)
    ensures LiveOut(f, b, v)
  {
    if v in f.uevar[s] {
      assert LiveAlong(f, [s], b, v);
    } else {
      var w :| LiveAlong(f, w, s, v);
      var u := [s] + w;
      forall i | 0 < i < |u| ensures f.g.Edge(u[i - 1], u[i]) {
        if i > 1 { assert u[i - 1] == w[i - 2] && u[i] == w[i - 1] && f.g.Edge(w[i - 2], w[i - 1]); }
      }
      forall i | 0 <= i < |u| - 1 ensures v !in f.varkill[u[i]] {
        if i > 0 { assert u[i] == w[i - 1]; }
      }
      assert LiveAlong(f, u, b, v);
    }
  }

  /** Any solution holds everything live along a path. */
  lemma {:induction false} SolutionHoldsLive(f: Facts, live: seq<set<nat>>, w: seq<nat>, b: nat, v: nat)
    requires Solves(f, live) && LiveAlong(f, w, b, v)
    ensures v in live[b]
    decreases |w|
  {
    var s := w[0];
    if |w| > 1 {
      var u := w[1..];
      forall i | 0 < i < |u| ensures f.g.Edge(u[i - 1], u[i]) {
        assert u[i - 1] == w[i] && u[i] == w[i + 1] && f.g.Edge(w[i], w[i + 1]);
      }
      assert f.g.Edge(w[0], w[1]);
      forall i | 0 <= i < |u| - 1 ensures v !in f.varkill[u[i]] { assert u[i] == w[i + 1]; }
      SolutionHoldsLive(f, live, u, s, v);
    }
    assert Through(f, live, s, v);
    assert Satisfies(f, live, b);
  }

  /** The sets given by paths solve the equations, and every solution contains them. */
  lemma LiveIsLeastSolution(f: Facts, live: seq<set<nat>>, other: seq<set<nat>>, b: nat)
    requires f.Valid() && |live| == |f.g.succ| && b < |live| && Solves(f, other)
    requires forall c: nat, v: nat | c < |live| :: v in live[c] <==> LiveOut(f, c, v)
    ensures Satisfies(f, live, b) && live[b] <= other[b]
  {
    forall v: nat ensures v in live[b] <==> ThroughSome(f, live, b, v) {
      if v in live[b] {
        var w :| LiveAlong(f, w, b, v);
        LiveStartsThrough(f, live, w, b, v);
      }
      if s :| s in f.g.succ[b] && Through(f, live, s, v) { LiveBySuccessor(f, live, b, s, v); }
    }
    forall v | v in live[b] ensures v in other[b] {
      var w :| LiveAlong(f, w, b, v);
      SolutionHoldsLive(f, other, w, b, v);
    }
  }

  lemma LiveStartsThrough(f: Facts, live: seq<set<nat>>, w: seq<nat>, b: nat, v: nat)
    requires f.Valid() && |live| == |f.g.succ| && b < |live| && LiveAlong(f, w, b, v)
    requires forall c: nat, v: nat | c < |live| :: v in live[c] <==> LiveOut(f, c, v)
    ensures ThroughSome(f, live, b, v)
  {
    hide Cfg.Valid;
    var s := w[0];
    if |w| > 1 {
      assert f.g.Edge(w[0], w[1]);
      PathSuffix(f.g, w, 1);
      var u := w[1..];
      forall i | 0 <= i < |u| - 1 ensures v !in f.varkill[u[i]] { assert u[i] == w[i + 1]; }
      assert LiveAlong(f, u, s, v);
    }
    assert Through(f, live, s, v);
  }

  // Uses and kills of a block

  method UsesAndKills(p: Program, b: nat) returns (use: set<nat>, kill: set<nat>)
    requires b < |p.code|
    ensures BlockFacts(p, b, use, kill)
  {
    hide Exposed, ExposedBefore, DefinedBefore;
    use, kill := {}, {};
    forall v: nat { NothingYet(p, b, v); }
    for k := 0 to |p.code[b]|
      invariant forall v: nat :: v in use <==> ExposedBefore(p, b, k, v)
      invariant forall v: nat :: v in kill <==> v != 0 && DefinedBefore(p, b, k, v)
    {
      var i := p.code[b][k];
      forall v: nat { ExposedNext(p, b, k, v); }
      forall v: nat { DefinedBeforeNext(p, b, k, v); }
      if i.src1 != 0 && i.src1 !in kill { use := use + {i.src1}; }
      if i.src2 != 0 && i.src2 !in kill { use := use + {i.src2}; }
      if i.dst != 0 { kill := kill + {i.dst}; }
    }
    forall v: nat { ExposedIs(p, b, v); }
  }

  method MakeUevarAndVarkill(p: Program) returns (uevar: array<set<nat>>, varkill: array<set<nat>>)
    requires p.Valid()
    ensures fresh(uevar) && fresh(varkill) && uevar != varkill
    ensures FactsOf(p, Facts(p.g, uevar[..], varkill[..]))
  {
    hide Cfg.Valid, BlockFacts;
    uevar := new set<nat>[|p.code|](_ => {});
    varkill := new set<nat>[|p.code|](_ => {});
    for b := 0 to |p.code|
      invariant forall c: nat | c < b :: BlockFacts(p, c, uevar[c], varkill[c])
    {
      var use, kill := UsesAndKills(p, b);
      uevar[b] := use;
      varkill[b] := kill;
    }
    SuccInRange(p.g);
  }

  // The iteration

  /** `seen[b][j]` is the version of the set of the `j`-th successor of `b` when the set of `b` was last computed. */
  datatype Work = Work(live: seq<set<nat>>, versions: seq<nat>, seen: seq<seq<nat>>) {
    ghost predicate Fits(f: Facts) {
      && f.Valid() && |live| == |versions| == |seen| == |f.g.succ|
      && (forall b | 0 <= b < |seen| :: |seen[b]| == |f.g.succ[b]|)
      && (forall b | 0 <= b < |versions| :: versions[b] > 0)
    }

    /** No successor of `b` has changed since the set of `b` was computed. */
    ghost predicate Current(f: Facts, b: nat)
      requires Fits(f) && b < |live|
    {
      forall j | 0 <= j < |f.g.succ[b]| :: seen[b][j] == versions[f.g.succ[b][j]]
    }

    /** Versions seen are not from the future, and a block whose successors have not changed satisfies its equation. */
    ghost predicate Cached(f: Facts)
      requires Fits(f)
    {
      && (forall b, j | 0 <= b < |seen| && 0 <= j < |seen[b]| :: seen[b][j] <= versions[f.g.succ[b][j]])
      && (forall b: nat | b < |live| && Current(f, b) :: Satisfies(f, live, b))
    }

    /** The sets hold only what is live, and each is contained in what its equation would give. */
    ghost predicate Rising(f: Facts)
      requires Fits(f)
    {
      && (forall b: nat, v: nat | b < |live| && v in live[b] :: LiveOut(f, b, v))
      && (forall b: nat, v: nat | b < |live| && v in live[b] :: ThroughSome(f, live, b, v))
    }

    ghost predicate Inv(f: Facts) {
      Fits(f) && Cached(f) && Rising(f)
    }
  }

  lemma ThroughGrows(f: Facts, live: seq<set<nat>>, live': seq<set<nat>>, b: nat, v: nat)
    requires f.Valid() && |live| == |live'| == |f.g.succ| && b < |live| && ThroughSome(f, live, b, v)
    requires forall c | 0 <= c < |live| :: live[c] <= live'[c]
    ensures ThroughSome(f, live', b, v)
  {
    var s :| s in f.g.succ[b] && Through(f, live, s, v);
    assert Through(f, live', s, v);
  }

  /** The contribution depends only on the sets of the successors. */
  lemma ThroughFrame(f: Facts, live: seq<set<nat>>, i: nat, x: set<nat>, b: nat, v: nat)
    requires f.Valid() && |live| == |f.g.succ| && b < |live| && i < |live| && i !in f.g.succ[b]
    ensures ThroughSome(f, live[i := x], b, v) <==> ThroughSome(f, live, b, v)
  {
    if s :| s in f.g.succ[b] && Through(f, live, s, v) { assert Through(f, live[i := x], s, v); }
    if s :| s in f.g.succ[b] && Through(f, live[i := x], s, v) { assert Through(f, live, s, v); }
  }

  /** The versions of the successors of `i`. */
  ghost predicate SeesNow(f: Facts, w: Work, i: nat, row: seq<nat>)
    requires w.Fits(f) && i < |w.live|
  {
    |row| == |f.g.succ[i]| && forall j | 0 <= j < |row| :: row[j] == w.versions[f.g.succ[i][j]]
  }

  /** The recomputed set is the one `i` had already. */
  lemma Unchanged(f: Facts, w: Work, i: nat, row: seq<nat>, w': Work)
    requires w.Inv(f) && i < |w.live| && SeesNow(f, w, i, row) && Satisfies(f, w.live, i)
    requires w' == w.(seen := w.seen[i := row])
    ensures w'.Inv(f)
  {
    hide Cfg.Valid, Satisfies, LiveOut, ThroughSome;
    forall b: nat | b < |w.live| && w'.Current(f, b) ensures Satisfies(f, w.live, b) {
      if b != i {
        assert w'.seen[b] == w.seen[b];
        assert w.Current(f, b);
      }
    }
  }

  /** The set of `i` has changed, and so has its version. */
  ghost predicate Replaced(f: Facts, w: Work, i: nat, row: seq<nat>, x: set<nat>, w': Work) {
    && w.Fits(f) && i < |w.live| && SeesNow(f, w, i, row)
    && w' == Work(w.live[i := x], w.versions[i := w.versions[i] + 1], w.seen[i := row])
  }

  lemma ChangedCached(f: Facts, w: Work, i: nat, row: seq<nat>, x: set<nat>, w': Work)
    requires w.Inv(f) && Replaced(f, w, i, row, x, w') && forall v: nat :: v in x <==> ThroughSome(f, w.live, i, v)
    ensures w'.Fits(f) && w'.Cached(f)
  {
    hide Cfg.Valid, LiveOut, ThroughSome;
    forall b: nat | b < |w.live| && w'.Current(f, b) ensures Satisfies(f, w'.live, b) {
      assert i !in f.g.succ[b] by { CurrentAvoids(f, w, i, row, x, w', b); }
      forall v: nat
        ensures ThroughSome(f, w'.live, b, v) <==> ThroughSome(f, w.live, b, v)
      {
        ThroughFrame(f, w.live, i, x, b, v);
      }
      if b != i { SameCurrent(f, w, i, row, x, w', b); }
    }
  }

  lemma CurrentAvoids(f: Facts, w: Work, i: nat, row: seq<nat>, x: set<nat>, w': Work, b: nat)
    requires w.Inv(f) && Replaced(f, w, i, row, x, w') && b < |w.live| && w'.Fits(f) && w'.Current(f, b)
    ensures i !in f.g.succ[b]
  {
    hide Cfg.Valid, LiveOut, ThroughSome, Satisfies;
  }

  lemma SameCurrent(f: Facts, w: Work, i: nat, row: seq<nat>, x: set<nat>, w': Work, b: nat)
    requires w.Inv(f) && Replaced(f, w, i, row, x, w') && b < |w.live| && b != i && i !in f.g.succ[b]
    requires w'.Fits(f) && w'.Current(f, b)
    ensures w.Current(f, b) && Satisfies(f, w.live, b)
  {
    hide Cfg.Valid, LiveOut, ThroughSome, Satisfies;
    forall j | 0 <= j < |f.g.succ[b]| ensures w.seen[b][j] == w.versions[f.g.succ[b][j]] {
      assert f.g.succ[b][j] in f.g.succ[b];
      assert w'.seen[b][j] == w'.versions[f.g.succ[b][j]];
    }
  }

  lemma ChangedRises(f: Facts, w: Work, i: nat, row: seq<nat>, x: set<nat>, w': Work)
    requires w.Inv(f) && Replaced(f, w, i, row, x, w') && forall v: nat :: v in x <==> ThroughSome(f, w.live, i, v)
    ensures w'.Fits(f) && w'.Rising(f) && w.live[i] <= x
  {
    hide Cfg.Valid, LiveOut, ThroughSome;
    assert w.live[i] <= x;
    forall b: nat, v: nat | b < |w.live| && v in w'.live[b] ensures LiveOut(f, b, v) && ThroughSome(f, w'.live, b, v) {
      assert ThroughSome(f, w.live, b, v);
      ThroughGrows(f, w.live, w'.live, b, v);
      ThroughIsLive(f, w, b, v);
    }
  }

  lemma ThroughIsLive(f: Facts, w: Work, b: nat, v: nat)
    requires w.Inv(f) && b < |w.live| && ThroughSome(f, w.live, b, v)
    ensures LiveOut(f, b, v)
  {
    hide Cfg.Valid, LiveOut;
    var s :| s in f.g.succ[b] && Through(f, w.live, s, v);
    LiveBySuccessor(f, w.live, b, s, v);
  }

  /** The vregs not yet found live, per block. */
  ghost function Pending(f: Facts, live: seq<set<nat>>): set<(nat, nat)>
    requires f.Valid() && |live| == |f.g.succ|
  {
    set b: nat, v: nat | b in AllBlocks(|live|) && v in Universe(f) && v !in live[b] :: (b, v)
  }

  ghost function Universe(f: Facts): set<nat> {
    set b: nat, v: nat | b < |f.uevar| && v in f.uevar[b] :: v
  }

  lemma LiveInUniverse(f: Facts, b: nat, v: nat)
    requires f.Valid() && LiveOut(f, b, v)
    ensures v in Universe(f)
  {
    var w :| LiveAlong(f, w, b, v);
    assert w[|w| - 1] < |f.uevar| && v in f.uevar[w[|w| - 1]];
  }

  lemma PendingFalls(f: Facts, w: Work, i: nat, x: set<nat>, v: nat)
    requires w.Fits(f) && i < |w.live| && w.live[i] <= x && v in x && v !in w.live[i] && LiveOut(f, i, v)
    ensures Pending(f, w.live[i := x]) < Pending(f, w.live)
  {
    LiveInUniverse(f, i, v);
    assert (i, v) in Pending(f, w.live);
    assert (i, v) !in Pending(f, w.live[i := x]);
  }

  /** The sets are the solution sought when every equation holds. */
  lemma StableIsLiveness(f: Facts, w: Work)
    requires w.Inv(f) && Solves(f, w.live)
    ensures forall b: nat, v: nat | b < |w.live| :: v in w.live[b] <==> LiveOut(f, b, v)
  {
    hide Cfg.Valid, Satisfies;
    forall b: nat, v: nat | b < |w.live| && LiveOut(f, b, v) ensures v in w.live[b] {
      var u :| LiveAlong(f, u, b, v);
      SolutionHoldsLive(f, w.live, u, b, v);
    }
  }

  /** The version of every successor. */
  method LookAtVersions(g: Cfg, versions: array<nat>, i: nat) returns (row: seq<nat>)
    requires i < |g.succ| && forall j | 0 <= j < |g.succ[i]| :: g.succ[i][j] < versions.Length
    ensures |row| == |g.succ[i]| && forall j | 0 <= j < |row| :: row[j] == versions[g.succ[i][j]]
  {
    row := [];
    for j := 0 to |g.succ[i]|
      invariant |row| == j && forall k | 0 <= k < j :: row[k] == versions[g.succ[i][k]]
    {
      row := row + [versions[g.succ[i][j]]];
    }
  }

  ghost predicate ThroughFirst(f: Facts, live: seq<set<nat>>, b: nat, k: nat, v: nat)
    requires f.Valid() && |live| == |f.g.succ| && b < |live| && k <= |f.g.succ[b]|
  {
    exists j :: 0 <= j < k && Through(f, live, f.g.succ[b][j], v)
  }

  lemma ThroughNext(f: Facts, live: seq<set<nat>>, b: nat, k: nat, v: nat)
    requires f.Valid() && |live| == |f.g.succ| && b < |live| && k < |f.g.succ[b]|
    ensures ThroughFirst(f, live, b, k + 1, v) <==>
            ThroughFirst(f, live, b, k, v) || Through(f, live, f.g.succ[b][k], v)
  {
    hide Through;
    if ThroughFirst(f, live, b, k, v) {
      var j :| 0 <= j < k && Through(f, live, f.g.succ[b][j], v);
      assert 0 <= j < k + 1;
    }
  }

  lemma ThroughAll(f: Facts, live: seq<set<nat>>, b: nat, v: nat)
    requires f.Valid() && |live| == |f.g.succ| && b < |live|
    ensures !ThroughFirst(f, live, b, 0, v)
    ensures ThroughFirst(f, live, b, |f.g.succ[b]|, v) <==> ThroughSome(f, live, b, v)
  {
    hide Through;
    if ThroughFirst(f, live, b, |f.g.succ[b]|, v) {
      var j :| 0 <= j < |f.g.succ[b]| && Through(f, live, f.g.succ[b][j], v);
      assert f.g.succ[b][j] in f.g.succ[b];
    }
  }

  /** The union of what the successors contribute. */
  method Unions(f: Facts, live: array<set<nat>>, i: nat) returns (unions: set<nat>)
    requires f.Valid() && live.Length == |f.g.succ| && i < live.Length
    ensures forall v: nat :: v in unions <==> ThroughSome(f, live[..], i, v)
  {
    hide Cfg.Valid, ThroughFirst, ThroughSome;
    unions := {};
    ghost var l := live[..];
    forall v: nat { ThroughAll(f, l, i, v); }
    for j := 0 to |f.g.succ[i]|
      invariant forall v: nat :: v in unions <==> ThroughFirst(f, l, i, j, v)
    {
      var s := f.g.succ[i][j];
      assert l[s] == live[s];
      unions := unions + f.uevar[s] + (live[s] - f.varkill[s]);
      forall v: nat ensures v in unions <==> ThroughFirst(f, l, i, j + 1, v) {
        ThroughNext(f, l, i, j, v);
        assert Through(f, l, s, v) <==> v in f.uevar[s] || (v in l[s] && v !in f.varkill[s]);
      }
    }
  }

  ghost function WorkOf(live: array<set<nat>>, versions: array<nat>, seen: array<seq<nat>>): Work
    reads live, versions, seen
  {
    Work(live[..], versions[..], seen[..])
  }

  method Matches(f: Facts, versions: array<nat>, seen: array<seq<nat>>, i: nat, ghost w: Work) returns (current: bool)
    requires w.Fits(f) && i < |w.live| && versions[..] == w.versions && seen[..] == w.seen
    ensures current <==> w.Current(f, i)
  {
    current := true;
    var j := 0;
    while j < |f.g.succ[i]|
      invariant 0 <= j <= |f.g.succ[i]| && current
      invariant forall k | 0 <= k < j :: w.seen[i][k] == w.versions[f.g.succ[i][k]]
    {
      if seen[i][j] != versions[f.g.succ[i][j]] {
        current := false;
        break;
      }
      j := j + 1;
    }
  }

  /** One block of one sweep: skipped if no successor has changed, recomputed otherwise. */
  method Visit(f: Facts, live: array<set<nat>>, versions: array<nat>, seen: array<seq<nat>>,
               i: nat) returns (changed: bool)
    requires WorkOf(live, versions, seen).Inv(f) && i < live.Length
    requires live as object != versions && live as object != seen && versions as object != seen
    modifies live, versions, seen
    ensures WorkOf(live, versions, seen).Inv(f)
    ensures !changed ==> live[..] == old(live[..]) && Satisfies(f, live[..], i)
    ensures changed ==> Pending(f, live[..]) < Pending(f, old(live[..]))
  {
    hide Cfg.Valid, Work.Cached, Work.Rising, Satisfies, ThroughSome, LiveOut, Pending;
    ghost var w := WorkOf(live, versions, seen);
    changed := false;
    var skip := Matches(f, versions, seen, i, w);
    if skip {
      CurrentSatisfies(f, w, i);
    } else {
      var row := LookAtVersions(f.g, versions, i);
      seen[i] := row;
      var unions := Unions(f, live, i);
      if live[i] != unions {
        versions[i] := versions[i] + 1;
        live[i] := unions;
        changed := true;
        VisitChanges(f, w, i, row, unions, WorkOf(live, versions, seen));
      } else {
        SatisfiesNow(f, w.live, i, unions);
        Unchanged(f, w, i, row, WorkOf(live, versions, seen));
      }
    }
  }

  lemma CurrentSatisfies(f: Facts, w: Work, i: nat)
    requires w.Inv(f) && i < |w.live| && w.Current(f, i)
    ensures Satisfies(f, w.live, i)
  {
    hide Cfg.Valid, Work.Rising;
  }

  lemma SatisfiesNow(f: Facts, live: seq<set<nat>>, i: nat, x: set<nat>)
    requires f.Valid() && |live| == |f.g.succ| && i < |live| && live[i] == x
    requires forall v: nat :: v in x <==> ThroughSome(f, live, i, v)
    ensures Satisfies(f, live, i)
  {
  }

  lemma VisitChanges(f: Facts, w: Work, i: nat, row: seq<nat>, x: set<nat>, w': Work)
    requires w.Inv(f) && Replaced(f, w, i, row, x, w') && x != w.live[i]
    requires forall v: nat :: v in x <==> ThroughSome(f, w.live, i, v)
    ensures w'.Inv(f) && Pending(f, w'.live) < Pending(f, w.live)
  {
    hide Cfg.Valid, Work.Cached, Satisfies, ThroughSome, LiveOut, Pending;
    ChangedCached(f, w, i, row, x, w');
    ChangedRises(f, w, i, row, x, w');
    var v :| v in x && v !in w.live[i];
    ThroughIsLive(f, w, i, v);
    PendingFalls(f, w, i, x, v);
  }

  /** The sets of vregs live at the ends of the blocks. */
  method MakeLiveout(f: Facts) returns (live: array<set<nat>>)
    requires f.Valid()
    ensures fresh(live) && live.Length == |f.g.succ|
    ensures forall b: nat, v: nat | b < live.Length :: v in live[b] <==> LiveOut(f, b, v)
  {
    hide Cfg.Valid, Work.Inv, Satisfies, Pending, LiveOut;
    live := new set<nat>[|f.g.succ|](_ => {});
    var versions := new nat[|f.g.succ|](_ => 1);
    var seen := new seq<nat>[|f.g.succ|](i requires 0 <= i < |f.g.succ| => seq(|f.g.succ[i]|, _ => 0));
    StartInv(f, WorkOf(live, versions, seen));
    var changed := true;
    while changed
      invariant WorkOf(live, versions, seen).Inv(f)
      invariant !changed ==> Solves(f, live[..])
      decreases Pending(f, live[..]), changed
    {
      changed := false;
      ghost var start := live[..];
      for i := 0 to live.Length
        invariant WorkOf(live, versions, seen).Inv(f)
        invariant !changed ==> live[..] == start && forall b: nat | b < i :: Satisfies(f, start, b)
        invariant changed ==> Pending(f, live[..]) < Pending(f, start)
      {
        var visited := Visit(f, live, versions, seen, i);
        changed := changed || visited;
      }
    }
    StableIsLiveness(f, WorkOf(live, versions, seen));
  }

  lemma StartInv(f: Facts, w: Work)
    requires f.Valid() && |w.live| == |w.versions| == |w.seen| == |f.g.succ|
    requires forall b | 0 <= b < |w.live| :: w.live[b] == {} && w.versions[b] == 1 && |w.seen[b]| == |f.g.succ[b]|
    requires forall b, j | 0 <= b < |w.seen| && 0 <= j < |w.seen[b]| :: w.seen[b][j] == 0
    ensures w.Inv(f)
  {
    hide Cfg.Valid;
    forall b: nat | b < |w.live| && w.Current(f, b) ensures Satisfies(f, w.live, b) {
      NotCurrentYet(f, w, b);
    }
  }

  lemma NotCurrentYet(f: Facts, w: Work, b: nat)
    requires w.Fits(f) && b < |w.live| && forall c | 0 <= c < |w.live| :: w.versions[c] == 1
    requires forall b, j | 0 <= b < |w.seen| && 0 <= j < |w.seen[b]| :: w.seen[b][j] == 0
    ensures w.Current(f, b) ==> f.g.succ[b] == []
  {
    if f.g.succ[b] != [] { assert w.seen[b][0] == 0 && w.versions[f.g.succ[b][0]] == 1; }
  }
}
