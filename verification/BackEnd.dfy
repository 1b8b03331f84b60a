/** Coalescing and register allocation one after the other (wcc.c:124-134). */
module BackEnd {
  import opened Cfgs
  import opened Ir
  import opened LocalUse
  import opened Liveness
  import opened Widths
  import opened EdgeMatrix
  import opened Separation
  import opened Interference
  import opened InterferenceSound
  import opened Coloring
  import opened Regalloc
  import opened CoalesceCode
  import opened Coalescing
  import SsaPipeline
  import SsaRoundTrip

  // Moves of a register onto itself

  predicate MovesOntoItself(i: Instr) {
    i.op == XMov && i.dst != 0 && i.src1 != 0 && i.dst == i.src1
  }

  function Cleaned(i: Instr): Instr {
    if MovesOntoItself(i) then Instr(Nop, 0, 0, 0, i.imm) else i
  }

  ghost predicate CleanedBlock(code: seq<Instr>, now: seq<Instr>) {
    |now| == |code| && forall k: nat | k < |code| :: now[k] == Cleaned(code[k])
  }

  ghost predicate CleanedCode(p: Program, q: Program) {
    && q.g == p.g && |q.code| == |p.code| && forall b: nat | b < |p.code| :: CleanedBlock(p.code[b], q.code[b])
  }

  method RemoveVregSelfMoves(p: Program) returns (q: Program)
    requires p.Valid()
    ensures q.Valid() && CleanedCode(p, q)
    ensures forall b: nat, k: nat | b < |p.code| && k < |p.code[b]| ::
              q.code[b][k] == var i := p.code[b][k];
                if i.op == XMov && i.dst == i.src1 != 0 then Instr(Nop, 0, 0, 0, i.imm) else i
  {
    hide Cfg.Valid;
    var code: seq<seq<Instr>> := [];
    for b := 0 to |p.code|
      invariant |code| == b && forall a: nat | a < b :: CleanedBlock(p.code[a], code[a])
    {
      var block: seq<Instr> := [];
      for k := 0 to |p.code[b]|
        invariant |block| == k && forall h: nat | h < k :: block[h] == Cleaned(p.code[b][h])
      {
        var i := p.code[b][k];
        if i.op == XMov && i.dst != 0 && i.src1 != 0 && i.dst == i.src1 { i := Instr(Nop, 0, 0, 0, i.imm); }
        block := block + [i];
      }
      code := code + [block];
    }
    q := Program(code, p.g);
  }

  lemma {:induction false} CleanedLive(p: Program, q: Program, out: seq<set<nat>>, b: nat, k: nat)
    requires CleanedCode(p, q) && |out| == |p.code| && b < |p.code| && k <= |p.code[b]|
    ensures |q.code[b]| == |p.code[b]| && LiveAt(q, out, b, k) <= LiveAt(p, out, b, k)
    decreases |p.code[b]| - k
  {
    assert CleanedBlock(p.code[b], q.code[b]);
    if k < |p.code[b]| { CleanedLive(p, q, out, b, k + 1); }
  }

  /** The liveout sets, which are not made anew, still cover the code. */
  lemma CleanedCovers(p: Program, q: Program, out: seq<set<nat>>)
    requires CleanedCode(p, q) && Covers(p, out)
    ensures Covers(q, out)
  {
    hide LiveAt, CleanedBlock;
    forall b: nat, s: nat | b < |q.code| && s < |q.code| && q.g.Edge(b, s) ensures LiveAt(q, out, s, 0) <= out[b] {
      CleanedLive(p, q, out, s, 0);
    }
  }

  lemma CleanedIsRewritten(p: Program, q: Program)
    requires CleanedCode(p, q)
    ensures Rewritten(p, q, Identity())
  {
    forall b: nat, k: nat | b < |p.code| && k < |p.code[b]|
      ensures |q.code[b]| == |p.code[b]| && Becomes(Identity(), p.code[b][k], q.code[b][k])
    {
      assert CleanedBlock(p.code[b], q.code[b]);
    }
    forall b: nat | b < |p.code| ensures |q.code[b]| == |p.code[b]| { assert CleanedBlock(p.code[b], q.code[b]); }
  }

  lemma CleanedMerges(p: Program, q: Program, c: Context, out: seq<set<nat>>)
    requires p.Valid() && q.Valid() && CleanedCode(p, q) && Covers(p, out) && Unreserved(p, out)
    ensures Merges(p, out, q, out, c, Identity())
  {
    hide Cfg.Valid, LiveAt, Covers, CleanedCode, Rewritten, Refines;
    EntryExists(p.g);
    CleanedIsRewritten(p, q);
    assert |q.code| == |p.code| by { CleanedSize(p, q); }
    CleanedLive(p, q, out, 0, 0) by { CoversSize(p, out); }
    forall b | 0 <= b < |out| ensures 0 !in out[b] { assert AllAbove(out[b]); }
    CoversSize(p, out);
    GentleIsSafe(p, out, Identity());
    PlanRefines(p, q, out, Identity());
  }

  lemma CleanedSize(p: Program, q: Program)
    requires CleanedCode(p, q)
    ensures |q.code| == |p.code|
  {
  }

  lemma CoversSize(p: Program, out: seq<set<nat>>)
    requires Covers(p, out)
    ensures |out| == |p.code|
  {
  }

  // What allocation needs

  /** The setting in which the graph for allocation is made. */
  function ForAllocation(c: Context): Context {
    c.(clobbers := true, instrsel := false)
  }

  ghost predicate Allocatable(p: Program, c: Context, out: seq<set<nat>>, n: nat) {
    p.Valid() && Fits(p, c, out) && Numbered(p, c, out, n) && Covers(p, out) && Unreserved(p, out)
  }

  lemma CleanedAllocatable(p: Program, q: Program, c: Context, out: seq<set<nat>>, n: nat)
    requires Good(p, c, out, n) && CleanedCode(p, q) && q.Valid()
    ensures Allocatable(q, ForAllocation(c), out, n) && Merges(p, out, q, out, c, Identity())
  {
    hide Cfg.Valid, Merges, Typed, MovesUnary, Covers;
    CleanedCovers(p, q, out);
    CleanedMerges(p, q, c, out);
    forall b, k | 0 <= b < |q.code| && 0 <= k < |q.code[b]|
      ensures InGraph(n, q.code[b][k]) && AllAbove(Mentioned(q.code[b][k])) && Reserved(c.demands[b][k])
    {
      assert CleanedBlock(p.code[b], q.code[b]);
      assert InGraph(n, p.code[b][k]) && AllAbove(Mentioned(p.code[b][k])) && Reserved(c.demands[b][k]);
    }
    forall b | 0 <= b < |q.code| ensures |q.code[b]| == |p.code[b]| { assert CleanedBlock(p.code[b], q.code[b]); }
  }

  // Widths through coalescing

  /** The type of a vreg says what counts of it. */
  ghost predicate ByType(w: Width, c: Context) {
    forall u: nat, v: nat, x: int | c.TypeOf(u) == c.TypeOf(v) :: w.view(u, x) == w.view(v, x)
  }

  /** Of vregs that are merged the same counts; they have one type. */
  ghost predicate Alike(w: Width, at: Placement) {
    forall v: nat, x: int :: w.view(at(v), x) == w.view(v, x)
  }

  lemma MergedAlike(w: Width, c: Context, at: Placement)
    requires ByType(w, c) && KeepsKinds(at, c)
    ensures Alike(w, at)
  {
  }

  ghost predicate ExtendsKeep(sem: Semantics, w: Width, p: Program) {
    forall b, k | 0 <= b < |p.code| && 0 <= k < |p.code[b]| && p.code[b][k].op == Extend && p.code[b][k].src1 != 0 ::
      KeepsLow(sem, w, p.code[b][k])
  }

  lemma InstructionFits(w: Width, at: Placement, i: Instr, j: Instr)
    requires Proper(at) && Becomes(at, i, j) && Alike(w, at) && WidthFits(w, i)
    ensures WidthFits(w, j)
  {
  }

  lemma InstructionKeepsLow(sem: Semantics, w: Width, at: Placement, i: Instr, j: Instr)
    requires Becomes(at, i, j) && Alike(w, at) && KeepsLow(sem, w, i) && j.op == Extend
    ensures KeepsLow(sem, w, j)
  {
    forall h, a, b ensures w.view(j.src1, sem.eval(h, j.op, j.imm, a, b)) == w.view(j.src1, a) {
      var x := sem.eval(h, i.op, i.imm, a, b);
      assert w.view(at(i.src1), x) == w.view(i.src1, x) && w.view(at(i.src1), a) == w.view(i.src1, a);
    }
  }

  /** What suits the program suits the coalesced program, wherever its vregs go. */
  lemma MergedSuits(sem: Semantics, w: Width, p: Program, q: Program, at: Placement, out: seq<set<nat>>,
                    place: Placement)
    requires Proper(at) && Rewritten(p, q, at) && Alike(w, at) && |out| == |q.code|
      && forall b | 0 <= b < |out| :: 0 !in out[b]
    requires ReadsAtWidth(sem, w) && AllFit(w, p) && ExtendsKeep(sem, w, p)
    ensures Suits(sem, w, q, out, place)
  {
    hide ReadsAtWidth, WidthFits, KeepsLow, Becomes, Alike, LiveAt;
    forall b, k | 0 <= b < |q.code| && 0 <= k < |q.code[b]| ensures WidthFits(w, q.code[b][k]) {
      assert Becomes(at, p.code[b][k], q.code[b][k]);
      InstructionFits(w, at, p.code[b][k], q.code[b][k]);
    }
    forall b: nat, k: nat | b < |q.code| && k < |q.code[b]| && Overwrites(place, q.code[b][k], LiveAt(q, out, b, k + 1))
      ensures KeepsLow(sem, w, q.code[b][k])
    {
      LiveAtPositive(q, out, b, k + 1);
      var i, j := p.code[b][k], q.code[b][k];
      assert Becomes(at, i, j);
      SameOperation(at, i, j);
      InstructionKeepsLow(sem, w, at, i, j);
    }
  }

  lemma SameOperation(at: Placement, i: Instr, j: Instr)
    requires Proper(at) && Becomes(at, i, j) && j.op == Extend && j.src1 != 0
    ensures i.op == Extend && i.src1 != 0
  {
  }

  // The composition

  /** Both are at the same instruction of the same block, and instructions have read the same. */
  ghost predicate Follows(w: Width, a: State, b: State) {
    a.block == b.block && a.index == b.index && Seen(w, a.history) == Seen(w, b.history)
  }

  /** Everything between the code on vregs and the code on machine locations: `mid` is the coalesced code, `now` are
      its liveout sets, and `r` is the code on locations. */
  ghost predicate Compiled(p: Program, out: seq<set<nat>>, mid: Program, now: seq<set<nat>>, r: Program, c: Context,
                           at: Placement, j: Job, l: Locations) {
    && Merges(p, out, mid, now, c, at) && Allocatable(mid, ForAllocation(c), now, j.n) && r.Valid()
    && j.context == c.(clobbers := true, instrsel := false) && j.edges == AllEdges(mid, ForAllocation(c), now)
    && ParametersApart(j)
    && Allocated(j, l) && Rewritten(mid, r, Placing(l))
  }

  /** What is asked of the operations of `p`, and of the conversions of the coalesced code. */
  ghost predicate Suitable(sem: Semantics, w: Width, p: Program, mid: Program, now: seq<set<nat>>, c: Context)
    requires Fits(mid, ForAllocation(c), now)
  {
    && ReadsAtWidth(sem, w) && AllFit(w, p) && ExtendsKeep(sem, w, p) && ByType(w, c)
    && ConvertsGuarded(mid, ForAllocation(c), now)
  }

  /** The code on machine locations runs in step with the code on vregs before coalescing, on any machine that keeps
      the registers it must keep, if nothing is live into block 0. */
  lemma CompiledFollows(p: Program, out: seq<set<nat>>, mid: Program, now: seq<set<nat>>, r: Program, c: Context,
                        at: Placement, j: Job, l: Locations, sem: Semantics, w: Width, junk: (History, nat) -> int,
                        env: Env, env': Env, n: nat)
    requires Compiled(p, out, mid, now, r, c, at, j, l) && Suitable(sem, w, p, mid, now, c)
      && LiveAt(p, out, 0, 0) == {}
    ensures Follows(w, Run(p, sem, env, n), RunOn(r, sem, Hardware(mid, ForAllocation(c), junk), env', n))
  {
    hide Cfg.Valid, LiveAt, Allocated, ParametersApart, Rewritten, Covers, AllEdges, ConvertsGuarded, Numbered;
    hide ReadsAtWidth, AllFit, ExtendsKeep, Alike, Hardware, Suits, Seen, Run, RunOn, Where;
    forall b | 0 <= b < |now| ensures 0 !in now[b] { assert AllAbove(now[b]); }
    hide Unreserved, ByType;
    MergedAlike(w, c, at);
    MergedSuits(sem, w, p, mid, at, now, Placing(l));
    AllocationPreservesMeaning(w, mid, r, ForAllocation(c), now, j, l, sem, junk, env, env', n);
    assert Holds(at, LiveAt(p, out, 0, 0), env, env);
    assert SamePlace(Run(p, sem, env, n), Run(mid, sem, env, n));
  }

  /** Coalescing after instruction selection, without the check, and register allocation. */
  method CoalesceAndAllocate(p: Program, c: Context, n: nat, original: seq<int>,
                             spillsBefore: nat, order: seq<nat>, prefer: seq<nat>, usePreferences: bool)
    returns (ok: bool, mid: Program, now: seq<set<nat>>, r: Program, l: Locations, ghost facts: Facts,
             ghost out: seq<set<nat>>, ghost at: Placement, ghost merged: Program)
    requires CodeGood(p, c, n) && |original| == n + 1 && IsOrder(n, order)
    requires var j := Job(n, {}, ForAllocation(c), original, spillsBefore);
        ParametersApart(j) && PrefersOwnClass(j, prefer)
    ensures FactsOf(p, facts) && |out| == |p.code|
    ensures forall b: nat, v: nat | b < |out| :: v in out[b] <==> LiveOut(facts, b, v)
    ensures Allocatable(mid, ForAllocation(c), now, n)
    ensures StillBlocked(merged, c, Sse, now) && CleanedCode(merged, mid)
    ensures StillBlocked(merged, c, Int, now) || (!NoSelfMoves(p) && StillBlocked(p, c, Int, out))
    ensures var j := Job(n, AllEdges(mid, ForAllocation(c), now), ForAllocation(c), original, spillsBefore);
      && |l.preg| == n + 1 && TopDown(j, l.preg, order, prefer, usePreferences, Int, {})
      && TopDown(j, l.preg, order, prefer, usePreferences, Sse, ClassMembers(j, Int))
    ensures ok <==> DemandsMet(mid, ForAllocation(c), l)
    ensures ok ==> Compiled(p, out, mid, now, r, c, at,
                            Job(n, AllEdges(mid, ForAllocation(c), now), ForAllocation(c), original, spillsBefore), l)
  {
    hide CodeGood, Good, Merges, FactsOf, LiveOut, Cfg.Valid, Allocated, CleanedCode, DemandsMet, Rewritten, TopDown;
    hide AllEdges, Covers, Numbered, Unreserved, StillBlocked, NoSelfMoves;
    var fine, q, liveout;
    ghost var first;
    fine, q, liveout, facts, out, first := CoalesceLiveRanges(p, c, n, false);
    GoodParts(q, c, liveout[..], n);
    var clean := RemoveVregSelfMoves(q);
    merged := q;
    CleanedAllocatable(q, clean, c, liveout[..], n);
    MergesCompose(p, out, q, liveout[..], clean, liveout[..], c, first, Identity());
    at := Compose(first, Identity());
    mid, now := clean, liveout[..];
    ok, r, l := AllocateProgram(mid, ForAllocation(c), now, n, original, spillsBefore, order, prefer, usePreferences,
                                (h, v) => 0);
  }

  // SSA form, live ranges and coalescing

  /** A live range of some vreg. */
  ghost predicate IsRange(r: SsaRoundTrip.Ranges, x: nat, v: nat) {
    exists sub :: r.Knows(v, sub) && r.Of(v, sub) == x
  }

  /** What is live into block 0 of the program on live ranges starts in its merged place with the value of its vreg. */
  ghost predicate StartsIn(r: SsaRoundTrip.Ranges, at: Placement, live: set<nat>, env: Env, env': Env) {
    forall x, v: nat | x in live && IsRange(r, x, v) :: Read(env', at(x)) == Read(env, v)
  }

  /** An environment for the program on live ranges. */
  ghost function Middle(r: SsaRoundTrip.Ranges, at: Placement, live: set<nat>, env: Env, env': Env): Env {
    map x | x in r.lr.Values + live :: if v: nat :| IsRange(r, x, v) then Read(env, v) else Read(env', at(x))
  }

  lemma MiddleStarts(r: SsaRoundTrip.Ranges, at: Placement, live: set<nat>, env: Env, env': Env)
    requires SsaRoundTrip.OneVreg(r) && StartsIn(r, at, live, env, env') && Proper(at)
    ensures var e := Middle(r, at, live, env, env'); SsaPipeline.StartsAlike(r, env, e) && Holds(at, live, e, env')
  {
    var e := Middle(r, at, live, env, env');
    forall v: nat, sub | r.Knows(v, sub) ensures Read(e, r.Of(v, sub)) == Read(env, v) {
      assert IsRange(r, r.Of(v, sub), v);
    }
  }

  /** The program that comes out of SSA form and the first coalescing runs in step with the one that went in. */
  lemma SsaThenCoalescing(p: Program, q: Program, r: SsaRoundTrip.Ranges, out: seq<set<nat>>, merged: Program,
                          now: seq<set<nat>>, c: Context, at: Placement, sem: Semantics, env: Env, env': Env, n: nat)
    requires p.Valid() && q.Valid() && SsaPipeline.SameMeaning(p, q, r) && SsaRoundTrip.OneVreg(r)
    requires Merges(q, out, merged, now, c, at) && StartsIn(r, at, LiveAt(q, out, 0, 0), env, env')
    ensures SamePlace(Run(p, sem, env, n), Run(merged, sem, env', n))
  {
    hide Cfg.Valid, LiveAt, Run, Rewritten, Middle, SsaPipeline.StartsAlike, SsaRoundTrip.OneVreg;
    var e := Middle(r, at, LiveAt(q, out, 0, 0), env, env');
    MiddleStarts(r, at, LiveAt(q, out, 0, 0), env, env');
    assert SamePlace(Run(q, sem, e, n), Run(merged, sem, env', n));
    assert SamePlace(Run(p, sem, env, n), Run(q, sem, e, n));
  }
}
