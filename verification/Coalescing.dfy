/** Coalescing live ranges until nothing changes (ssa.c:1621-1764). */
module Coalescing {
  import opened Cfgs
  import opened Ir
  import opened LocalUse
  import opened Liveness
  import opened EdgeMatrix
  import opened Separation
  import opened Interference
  import opened EdgeMeaning
  import opened InterferenceSound
  import opened Pending
  import opened CoalesceCode

  // Candidates

  /** The instruction after instruction `k` of block `b` in the list of all instructions; a Nop if there is none. */
  function Next(p: Program, b: nat, k: nat): Instr
    requires b < |p.code| && k <= |p.code[b]|
    decreases |p.code| - b
  {
    if k < |p.code[b]| then p.code[b][k] else if b + 1 < |p.code| then Next(p, b + 1, 0) else Instr(Nop, 0, 0, 0, 0)
  }

  /** Machine moves in front of an operation that overwrites its second operand. */
  ghost predicate TakesCopy(next: Instr) {
    ((next.op == XAdd || next.op == XSub || next.op == XMul) && next.src2 != 0) || (next.op == XShr && next.src1 != 0)
  }

  ghost predicate IsCandidate(c: Context, i: Instr, next: Instr, kind: Class) {
    && i.dst != 0 && i.src1 != 0 && c.ClassOf(i.dst) == kind
    && (i.op == Move || (i.op == XMov && c.ClassOf(i.src1) == kind && TakesCopy(next)))
  }

  ghost predicate CandidateAt(p: Program, c: Context, kind: Class, b: nat, k: nat, e: Edge) {
    && b < |p.code| && k < |p.code[b]| && IsCandidate(c, p.code[b][k], Next(p, b, k + 1), kind)
    && e == (p.code[b][k].dst, p.code[b][k].src1)
  }

  ghost predicate FromCode(p: Program, c: Context, kind: Class, candidates: set<Edge>) {
    forall e | e in candidates :: exists b: nat, k: nat :: CandidateAt(p, c, kind, b, k, e)
  }

  ghost predicate AllFound(p: Program, c: Context, kind: Class, candidates: set<Edge>, n: nat, h: nat) {
    forall b: nat, k: nat, e | (b < n || (b == n && k < h)) && CandidateAt(p, c, kind, b, k, e) :: e in candidates
  }

  /** An operand at this instruction must be in some register. */
  ghost predicate DemandsAt(p: Program, c: Context, b: nat, k: nat, v: nat) {
    && b < |p.code| && k < |p.code[b]| && b < |c.demands| && k < |c.demands[b]| && v != 0
    && var i, d := p.code[b][k], c.demands[b][k];
      (i.dst == v && d.dst != 0) || (i.src1 == v && d.src1 != 0) || (i.src2 == v && d.src2 != 0)
  }

  ghost predicate AllMarked(p: Program, c: Context, clobbers: seq<bool>, n: nat, h: nat) {
    forall b: nat, k: nat, v: nat | (b < n || (b == n && k < h)) && DemandsAt(p, c, b, k, v) && v < |clobbers| ::
        clobbers[v]
  }

  ghost predicate OnlyDemanded(p: Program, c: Context, clobbers: seq<bool>) {
    forall v: nat | v < |clobbers| && clobbers[v] :: exists b: nat, k: nat :: DemandsAt(p, c, b, k, v)
  }

  method FindNext(p: Program, b: nat, k: nat) returns (i: Instr)
    requires b < |p.code| && k <= |p.code[b]|
    ensures i == Next(p, b, k)
  {
    var c: nat, h: nat := b, k;
    while h == |p.code[c]| && c + 1 < |p.code|
      invariant c < |p.code| && h <= |p.code[c]| && Next(p, c, h) == Next(p, b, k)
      decreases |p.code| - c
    {
      c, h := c + 1, 0;
    }
    i := if h < |p.code[c]| then p.code[c][h] else Instr(Nop, 0, 0, 0, 0);
  }

  method Mark(clobbers: array<bool>, v: nat, demand: nat)
    requires v < clobbers.Length
    modifies clobbers
    ensures forall u | 0 <= u < clobbers.Length ::
            clobbers[u] == (old(clobbers[u]) || (u == v && v != 0 && demand != 0))
  {
    if v != 0 && demand != 0 { clobbers[v] := true; }
  }

  method TestCandidate(c: Context, kind: Class, i: Instr, next: Instr) returns (found: bool)
    ensures found <==> IsCandidate(c, i, next, kind)
  {
    found := false;
    if i.op == Move && i.dst != 0 && i.src1 != 0 && c.ClassOf(i.dst) == kind {
      found := true;
    } else if i.op == XMov && i.dst != 0 && c.ClassOf(i.dst) == kind && i.src1 != 0 && c.ClassOf(i.src1) == kind {
      if (next.op == XAdd || next.op == XSub || next.op == XMul) && next.src2 != 0 { found := true; }
      if next.op == XShr && next.src1 != 0 { found := true; }
    }
  }

  /** Merge candidates, and the vregs that must be in some register. */
  method FindCandidates(p: Program, c: Context, kind: Class, out: seq<set<nat>>, n: nat) returns (candidates: set<Edge>,
                        clobbers: array<bool>)
    requires Fits(p, c, out) && Numbered(p, c, out, n)
    ensures fresh(clobbers) && clobbers.Length == n + 1
    ensures FromCode(p, c, kind, candidates) && AllFound(p, c, kind, candidates, |p.code|, 0)
    ensures AllMarked(p, c, clobbers[..], |p.code|, 0) && OnlyDemanded(p, c, clobbers[..])
  {
    hide Typed, Next, IsCandidate;
    candidates := {};
    clobbers := new bool[n + 1](_ => false);
    for b := 0 to |p.code|
      invariant FromCode(p, c, kind, candidates) && AllFound(p, c, kind, candidates, b, 0)
        && AllMarked(p, c, clobbers[..], b, 0)
      invariant OnlyDemanded(p, c, clobbers[..])
    {
      for k := 0 to |p.code[b]|
        invariant FromCode(p, c, kind, candidates) && AllFound(p, c, kind, candidates, b, k)
          && AllMarked(p, c, clobbers[..], b, k)
        invariant OnlyDemanded(p, c, clobbers[..])
      {
        var i, d := p.code[b][k], c.demands[b][k];
        assert InGraph(n, i);
        var next := FindNext(p, b, k + 1);
        ghost var was := candidates;
        var found := TestCandidate(c, kind, i, next);
        if found { candidates := candidates + {(i.dst, i.src1)}; }
        FoundHere(p, c, kind, was, candidates, b, k);
        FoundNext(p, c, kind, was, candidates, b, k);
        ghost var marks := clobbers[..];
        Mark(clobbers, i.dst, d.dst);
        Mark(clobbers, i.src1, d.src1);
        Mark(clobbers, i.src2, d.src2);
        MarkedNext(p, c, marks, clobbers[..], b, k);
      }
    }
  }

  lemma FoundHere(p: Program, c: Context, kind: Class, was: set<Edge>, now: set<Edge>, b: nat, k: nat)
    requires b < |p.code| && k < |p.code[b]| && FromCode(p, c, kind, was)
    requires var i := p.code[b][k];
      now == if IsCandidate(c, i, Next(p, b, k + 1), kind) then was + {(i.dst, i.src1)} else was
    ensures FromCode(p, c, kind, now) && forall e | CandidateAt(p, c, kind, b, k, e) :: e in now
  {
    hide Next, IsCandidate;
    var i := p.code[b][k];
    assert IsCandidate(c, i, Next(p, b, k + 1), kind) ==> CandidateAt(p, c, kind, b, k, (i.dst, i.src1));
  }

  lemma FoundNext(p: Program, c: Context, kind: Class, was: set<Edge>, now: set<Edge>, b: nat, k: nat)
    requires b < |p.code| && k < |p.code[b]| && AllFound(p, c, kind, was, b, k) && was <= now
    requires forall e | CandidateAt(p, c, kind, b, k, e) :: e in now
    ensures AllFound(p, c, kind, now, b, k + 1)
  {
    hide CandidateAt;
  }

  lemma MarkedNext(p: Program, c: Context, was: seq<bool>, now: seq<bool>, b: nat, k: nat)
    requires |was| == |now| && AllMarked(p, c, was, b, k)
    requires forall v: nat | v < |now| :: now[v] <==> was[v] || DemandsAt(p, c, b, k, v)
    ensures AllMarked(p, c, now, b, k + 1) && (OnlyDemanded(p, c, was) ==> OnlyDemanded(p, c, now))
  {
    hide DemandsAt;
  }

  // Rounds

  /** What every round starts and ends with. */
  ghost predicate Good(p: Program, c: Context, out: seq<set<nat>>, n: nat) {
    && p.Valid() && Fits(p, c, out) && Numbered(p, c, out, n) && Covers(p, out) && Unreserved(p, out)
    && MovesUnary(p) && Typed(p, c) && c.instrsel
  }

  /** The runs of `p` and `q` are at the same places with the same histories if the environments they start in agree. */
  ghost predicate Refines(p: Program, q: Program, out: seq<set<nat>>, at: Placement)
    requires p.Valid() && q.Valid() && |out| == |p.code| && |p.code| > 0
  {
    forall sem, env, env', n | Holds(at, LiveAt(p, out, 0, 0), env, env') ::
        SamePlace(Run(p, sem, env, n), Run(q, sem, env', n))
  }

  ghost predicate SamePlace(a: State, b: State) {
    a.block == b.block && a.index == b.index && a.history == b.history
  }

  /** Every vreg goes to one of its own class and type. */
  ghost predicate KeepsKinds(at: Placement, c: Context) {
    forall v: nat :: c.ClassOf(at(v)) == c.ClassOf(v) && c.TypeOf(at(v)) == c.TypeOf(v)
  }

  /** `q` is `p` with vregs merged by `at`, and does the same. */
  ghost predicate Merges(p: Program, out: seq<set<nat>>, q: Program, now: seq<set<nat>>, c: Context, at: Placement) {
    && p.Valid() && q.Valid() && |out| == |p.code| == |q.code| == |now| && |p.code| > 0 && Rewritten(p, q, at)
    && Proper(at) && KeepsKinds(at, c)
    && LiveAt(q, now, 0, 0) <= ImageAt(at, LiveAt(p, out, 0, 0)) && Refines(p, q, out, at)
  }

  ghost function ImageAt(at: Placement, s: set<nat>): set<nat> {
    set v | v in s :: at(v)
  }

  /** The result of a round that has chosen `pending`. */
  ghost predicate RoundResult(p: Program, c: Context, out: seq<set<nat>>, n: nat, pending: Renames, current: set<Edge>,
                              clobbers: seq<bool>, candidates: set<Edge>, q: Program, now: seq<set<nat>>)
    requires Fits(p, c, out)
  {
    && Progressing(n, c, AllEdges(p, c, out), current, pending, clobbers, candidates)
    && CoalescedCode(pending, p, q) && q.Valid() && |now| == |out| && forall b: nat | b < |out| ::
        now[b] == Image(pending, out[b])
  }

  lemma PendingPositive(n: nat, c: Context, pending: Renames)
    requires Settled(n, c, pending)
    ensures 0 !in pending && (forall v | v in pending :: pending[v] != 0) && Proper(RepOf(pending))
    ensures KeepsKinds(RepOf(pending), c)
    ensures forall v: nat | v > RESERVED :: Rep(pending, v) > RESERVED
  {
  }

  /** A round keeps what rounds start with. */
  lemma RoundKeepsGood(p: Program, c: Context, out: seq<set<nat>>, n: nat, pending: Renames,
                       current: set<Edge>, clobbers: seq<bool>, candidates: set<Edge>, q: Program, now: seq<set<nat>>)
    requires Good(p, c, out, n) && RoundResult(p, c, out, n, pending, current, clobbers, candidates, q, now)
    ensures Good(q, c, now, n)
  {
    hide Cfg.Valid, LiveAt, Image, Covers, AllEdges, CoversMembers, SomeMerged, ClobberedAlone, Within;
    PendingPositive(n, c, pending);
    MigratedCovers(p, q, pending, out, now);
    forall b | 0 <= b < |now| ensures AllVregs(n, now[b]) && AllAbove(now[b]) { ImageNumbered(n, c, pending, out[b]); }
    forall b, k | 0 <= b < |q.code| && 0 <= k < |q.code[b]|
      ensures InGraph(n, q.code[b][k]) && AllAbove(Mentioned(q.code[b][k]))
        && TypesFit(c, q.code[b][k])
    {
      assert CoalescedBlock(pending, p.code[b], q.code[b]);
      assert InGraph(n, p.code[b][k]) && AllAbove(Mentioned(p.code[b][k])) &&
             TypesFit(c, p.code[b][k]);
      InstructionNumbered(n, c, pending, p.code[b][k]);
    }
    forall b, k | 0 <= b < |q.code| && 0 <= k < |q.code[b]| && q.code[b][k].op == Move ensures q.code[b][k].src2 == 0 {
      assert CoalescedBlock(pending, p.code[b], q.code[b]);
      assert q.code[b][k] == Coalesced(pending, p.code[b][k]);
    }
  }

  lemma ImageNumbered(n: nat, c: Context, pending: Renames, s: set<nat>)
    requires Settled(n, c, pending) && AllVregs(n, s) && AllAbove(s)
    ensures AllVregs(n, Image(pending, s)) && AllAbove(Image(pending, s))
  {
  }

  lemma InstructionNumbered(n: nat, c: Context, pending: Renames, i: Instr)
    requires Settled(n, c, pending) && InGraph(n, i) && AllAbove(Mentioned(i)) && TypesFit(c, i)
    ensures var j := Coalesced(pending, i); InGraph(n, j) && AllAbove(Mentioned(j)) && TypesFit(c, j)
  {
    PendingPositive(n, c, pending);
  }

  /** A round preserves meaning. */
  lemma RoundMerges(p: Program, c: Context, out: seq<set<nat>>, n: nat, pending: Renames, current: set<Edge>,
                    clobbers: seq<bool>, candidates: set<Edge>, q: Program, now: seq<set<nat>>)
    requires Good(p, c, out, n) && RoundResult(p, c, out, n, pending, current, clobbers, candidates, q, now)
    ensures Merges(p, out, q, now, c, RepOf(pending))
  {
    hide Cfg.Valid, LiveAt, Image, Covers, AllEdges, SomeMerged, ClobberedAlone, Within, Separates, CoalescedCode;
    hide Unreserved, Numbered, Typed;
    var at := RepOf(pending);
    PendingPositive(n, c, pending);
    FirstBlock(p, q, pending);
    LiveImage(p, q, pending, out, now, 0, 0);
    assert Image(pending, LiveAt(p, out, 0, 0)) == ImageAt(at, LiveAt(p, out, 0, 0)) by {
      ImagesAgree(pending, LiveAt(p, out, 0, 0));
    }
    CoalescedIsRewritten(n, c, pending, p, q);
    RoundIsPlan(p, c, out, n, pending, current, clobbers, candidates, q, now);
    PlanRefines(p, q, out, at);
  }

  lemma FirstBlock(p: Program, q: Program, pending: Renames)
    requires p.Valid() && CoalescedCode(pending, p, q)
    ensures 0 < |p.code| == |q.code| && |q.code[0]| == |p.code[0]|
  {
    assert CoalescedBlock(pending, p.code[0], q.code[0]);
  }

  lemma ImagesAgree(pending: Renames, s: set<nat>)
    ensures Image(pending, s) == ImageAt(RepOf(pending), s)
  {
  }

  lemma MembersRespected(original: set<Edge>, current: set<Edge>, pending: Renames)
    requires CoversMembers(original, current, pending)
    ensures Respects(RepOf(pending), original)
  {
  }

  lemma RoundIsPlan(p: Program, c: Context, out: seq<set<nat>>, n: nat, pending: Renames, current: set<Edge>,
                    clobbers: seq<bool>, candidates: set<Edge>, q: Program, now: seq<set<nat>>)
    requires Good(p, c, out, n) && RoundResult(p, c, out, n, pending, current, clobbers, candidates, q, now)
    ensures Plan(p, q, out, RepOf(pending), Gentle()) && Unshared(p, out, RepOf(pending))
  {
    hide Cfg.Valid, LiveAt, Image, Covers, AllEdges, SomeMerged, ClobberedAlone, Within, Separates, CoalescedCode;
    hide Numbered, Typed;
    var at := RepOf(pending);
    PendingPositive(n, c, pending);
    forall b | 0 <= b < |out| ensures 0 !in out[b] { assert AllAbove(out[b]); }
    hide Unreserved, Settled, KeepsKinds;
    MembersRespected(AllEdges(p, c, out), current, pending);
    hide CoversMembers;
    KindsKept(at, c);
    TypedSeparates(p, c, out, at);
    SelectionUnshared(p, c, out, at);
    CoalescedIsRewritten(n, c, pending, p, q);
    GentleIsSafe(p, out, at);
  }

  lemma KindsKept(at: Placement, c: Context)
    requires KeepsKinds(at, c)
    ensures KeepsClasses(at, c) && KeepsTypes(at, c)
  {
    forall v: nat, w: nat | at(v) == at(w) ensures c.ClassOf(v) == c.ClassOf(w) && c.TypeOf(v) == c.TypeOf(w) {
      assert c.ClassOf(at(v)) == c.ClassOf(v) && c.ClassOf(at(w)) == c.ClassOf(w);
    }
  }

  lemma GentleIsSafe(p: Program, out: seq<set<nat>>, at: Placement)
    requires |out| == |p.code|
    ensures SafeOn(p, out, at, Gentle())
  {
    hide LiveAt;
  }

  lemma PlanRefines(p: Program, q: Program, out: seq<set<nat>>, at: Placement)
    requires Plan(p, q, out, at, Gentle()) && Unshared(p, out, at) && |p.code| == |out| > 0
    ensures Refines(p, q, out, at)
  {
    hide Cfg.Valid, LiveAt, Covers, Separates, Rewritten, SafeOn, Proper, Run, RunOn, Holds, Gentle;
    forall sem, env, env', n: nat | Holds(at, LiveAt(p, out, 0, 0), env, env')
      ensures SamePlace(Run(p, sem, env, n), Run(q, sem, env', n))
    {
      RunsMatchWhole(p, q, out, at, sem, Gentle(), env, env', n);
      GentleRun(q, sem, env', n);
    }
  }

  // Composition

  function Identity(): Placement {
    v => v
  }

  lemma MergesNothing(p: Program, c: Context, out: seq<set<nat>>, n: nat)
    requires Good(p, c, out, n)
    ensures Merges(p, out, p, out, c, Identity())
  {
    hide Cfg.Valid, LiveAt, Numbered, Typed, Refines;
    EntryExists(p.g);
    forall b | 0 <= b < |out| ensures 0 !in out[b] { assert AllAbove(out[b]); }
    GentleIsSafe(p, out, Identity());
    PlanRefines(p, p, out, Identity());
  }

  lemma EntryExists(g: Cfg)
    requires g.Valid()
    ensures |g.succ| > 0
  {
  }

  function Compose(at: Placement, next: Placement): Placement {
    v => next(at(v))
  }

  /** An environment for the program in the middle. */
  ghost function Between(at: Placement, next: Placement, live: set<nat>, env': Env): Env {
    map x | x in ImageAt(at, live) :: Read(env', next(x))
  }

  lemma BetweenHolds(at: Placement, next: Placement, live: set<nat>, middle: set<nat>, env: Env, env': Env)
    requires Proper(at) && Proper(next) && Holds(Compose(at, next), live, env, env') && middle <= ImageAt(at, live)
    ensures Holds(at, live, env, Between(at, next, live, env'))
      && Holds(next, middle, Between(at, next, live, env'), env')
  {
  }

  lemma BecomesCompose(at: Placement, next: Placement, i: Instr, j: Instr, h: Instr)
    requires Proper(at) && Proper(next) && Becomes(at, i, j) && Becomes(next, j, h)
    ensures Becomes(Compose(at, next), i, h)
  {
  }

  lemma RewrittenCompose(p: Program, q: Program, r: Program, at: Placement, next: Placement)
    requires Proper(at) && Proper(next) && Rewritten(p, q, at) && Rewritten(q, r, next)
    ensures Rewritten(p, r, Compose(at, next))
  {
    hide Becomes, Proper;
    forall b: nat, k: nat | b < |p.code| && k < |p.code[b]|
      ensures Becomes(Compose(at, next), p.code[b][k], r.code[b][k])
    {
      assert Becomes(at, p.code[b][k], q.code[b][k]) && Becomes(next, q.code[b][k], r.code[b][k]);
      BecomesCompose(at, next, p.code[b][k], q.code[b][k], r.code[b][k]);
    }
  }

  lemma ImagesCompose(at: Placement, next: Placement, live: set<nat>, middle: set<nat>, last: set<nat>)
    requires middle <= ImageAt(at, live) && last <= ImageAt(next, middle)
    ensures last <= ImageAt(Compose(at, next), live)
  {
    forall x | x in last ensures x in ImageAt(Compose(at, next), live) {
      var y :| y in middle && next(y) == x;
      var z :| z in live && at(z) == y;
      assert Compose(at, next)(z) == x;
    }
  }

  lemma KindsCompose(c: Context, at: Placement, next: Placement)
    requires Proper(at) && Proper(next) && KeepsKinds(at, c) && KeepsKinds(next, c)
    ensures Proper(Compose(at, next)) && KeepsKinds(Compose(at, next), c)
  {
  }

  lemma MergesCompose(p: Program, out: seq<set<nat>>, q: Program, mid: seq<set<nat>>, r: Program, now: seq<set<nat>>,
                      c: Context, at: Placement, next: Placement)
    requires Merges(p, out, q, mid, c, at) && Merges(q, mid, r, now, c, next)
    ensures Merges(p, out, r, now, c, Compose(at, next))
  {
    hide Cfg.Valid, LiveAt, Holds, Run, Rewritten, ImageAt, Proper, KeepsKinds;
    RewrittenCompose(p, q, r, at, next);
    var both := Compose(at, next);
    KindsCompose(c, at, next);
    ImagesCompose(at, next, LiveAt(p, out, 0, 0), LiveAt(q, mid, 0, 0), LiveAt(r, now, 0, 0));
    forall sem, env, env', n: nat | Holds(both, LiveAt(p, out, 0, 0), env, env')
      ensures SamePlace(Run(p, sem, env, n), Run(r, sem, env', n))
    {
      var e := Between(at, next, LiveAt(p, out, 0, 0), env');
      BetweenHolds(at, next, LiveAt(p, out, 0, 0), LiveAt(q, mid, 0, 0), env, env');
      assert SamePlace(Run(p, sem, env, n), Run(q, sem, e, n));
      assert SamePlace(Run(q, sem, e, n), Run(r, sem, env', n));
    }
  }

  // The loop

  /** A round that changes anything turns a move into a Nop: machine moves are kept apart by the edges for instruction
      selection, so the first pair merged comes from a plain move. */
  lemma ChangeRemovesMove(p: Program, c: Context, kind: Class, out: seq<set<nat>>, n: nat, pending: Renames,
                          current: set<Edge>, clobbers: seq<bool>, candidates: set<Edge>, q: Program)
    requires Good(p, c, out, n) && Progressing(n, c, AllEdges(p, c, out), current, pending, clobbers, candidates)
    requires CoalescedCode(pending, p, q) && FromCode(p, c, kind, candidates)
    ensures Moves(q.code) <= Moves(p.code) && (pending != map[] ==> Moves(q.code) < Moves(p.code))
  {
    hide Cfg.Valid, LiveAt, Image, Covers, AllEdges, ClobberedAlone, Within, Numbered, Typed, Unreserved;
    hide CoversMembers, Settled;
    MovesFall(pending, p.code, q.code);
    if pending != map[] {
      var d: nat, s: nat :| (d, s) in candidates && !Has(AllEdges(p, c, out), s, d) &&
          Rep(pending, s) == Rep(pending, d);
      var b: nat, k: nat :| CandidateAt(p, c, kind, b, k, (d, s));
      CandidateIsMove(p, c, kind, out, b, k);
      assert CoalescedBlock(pending, p.code[b], q.code[b]);
      assert q.code[b][k].op != Move by { PendingPositive(n, c, pending); }
      assert MoveGone(p.code, q.code, b);
    }
  }

  lemma CandidateIsMove(p: Program, c: Context, kind: Class, out: seq<set<nat>>, b: nat, k: nat)
    requires Fits(p, c, out) && c.instrsel && b < |p.code| && k < |p.code[b]|
    requires var i := p.code[b][k];
        CandidateAt(p, c, kind, b, k, (i.dst, i.src1)) && !Has(AllEdges(p, c, out), i.src1, i.dst)
    ensures p.code[b][k].op == Move
  {
    hide LiveAt, AllEdges, ForcedEdges, CallEdges, ExcludedEdges, ResultEdges;
    EdgeOfProgram(p, c, out, b, k);
  }

  lemma GoodParts(p: Program, c: Context, out: seq<set<nat>>, n: nat)
    requires Good(p, c, out, n)
    ensures p.Valid() && Fits(p, c, out) && Numbered(p, c, out, n) && Typed(p, c)
  {
  }

  lemma GoodSelects(p: Program, c: Context, out: seq<set<nat>>, n: nat)
    requires Good(p, c, out, n)
    ensures c.instrsel
  {
  }

  lemma GoodInstruction(p: Program, c: Context, out: seq<set<nat>>, n: nat, b: nat, k: nat)
    requires Good(p, c, out, n) && b < |p.code| && k < |p.code[b]|
    ensures var i := p.code[b][k];
      InGraph(n, i) && AllAbove(Mentioned(i)) && TypesFit(c, i) && (IsIrMove(i) ==> i.src2 == 0)
  {
    hide Cfg.Valid, Covers, InGraph, TypesFit, IsIrMove, AllAbove;
  }

  lemma {:induction false} MoveInBlock(code: seq<Instr>, k: nat)
    requires k < |code| && code[k].op == Move
    ensures MovesIn(code) > 0
  {
    if k > 0 { MoveInBlock(code[1..], k - 1); }
  }

  lemma {:induction false} MoveInCode(code: seq<seq<Instr>>, b: nat, k: nat)
    requires b < |code| && k < |code[b]| && code[b][k].op == Move
    ensures Moves(code) > 0
  {
    if b == 0 { MoveInBlock(code[0], k); } else { MoveInCode(code[1..], b - 1, k); }
  }

  /** Without moves between operands of one type nothing is merged: every machine move that is a candidate
      interferes. */
  lemma NothingMerged(p: Program, c: Context, kind: Class, out: seq<set<nat>>, n: nat, pending: Renames,
                      current: set<Edge>, clobbers: seq<bool>, candidates: set<Edge>, q: Program)
    requires Good(p, c, out, n) && Fits(p, c, out)
      && Progressing(n, c, AllEdges(p, c, out), current, pending, clobbers, candidates)
    requires CoalescedCode(pending, p, q) && FromCode(p, c, kind, candidates) && Moves(p.code) == 0
    ensures pending == map[] && q == p
  {
    hide Good, Fits, AllEdges, Settled, CoversMembers, ClobberedAlone, Within, CandidateAt, Coalesced, Has;
    if pending != map[] {
      var d: nat, s: nat :| (d, s) in candidates && !Has(AllEdges(p, c, out), s, d) &&
          Rep(pending, s) == Rep(pending, d);
      var b: nat, k: nat :| CandidateAt(p, c, kind, b, k, (d, s));
      CandidateHere(p, c, kind, b, k, (d, s));
      GoodSelects(p, c, out, n);
      CandidateIsMove(p, c, kind, out, b, k);
      MoveInCode(p.code, b, k);
    } else {
      forall b: nat | b < |p.code| ensures q.code[b] == p.code[b] { BlockUnchanged(p, c, out, n, q, b); }
      assert q.code == p.code;
    }
  }

  lemma CandidateHere(p: Program, c: Context, kind: Class, b: nat, k: nat, e: Edge)
    requires CandidateAt(p, c, kind, b, k, e)
    ensures b < |p.code| && k < |p.code[b]| && e == (p.code[b][k].dst, p.code[b][k].src1)
  {
  }

  lemma BlockUnchanged(p: Program, c: Context, out: seq<set<nat>>, n: nat, q: Program, b: nat)
    requires Good(p, c, out, n) && CoalescedCode(map[], p, q) && Moves(p.code) == 0 && b < |p.code|
    ensures q.code[b] == p.code[b]
  {
    hide Good, Moves, Coalesced;
    assert CoalescedBlock(map[], p.code[b], q.code[b]);
    forall k: nat | k < |p.code[b]| ensures q.code[b][k] == p.code[b][k] {
      GoodInstruction(p, c, out, n, b, k);
      if p.code[b][k].op == Move { MoveInCode(p.code, b, k); }
      InstructionUnchanged(c, p.code[b][k]);
    }
  }

  lemma InstructionUnchanged(c: Context, i: Instr)
    requires i.op != Move && TypesFit(c, i)
    ensures Coalesced(map[], i) == i
  {
  }

  /** The check on the renamed code passes exactly if operands were distinct before the round, and then they still
      are. */
  lemma RoundChecks(p: Program, c: Context, out: seq<set<nat>>, n: nat, pending: Renames, current: set<Edge>,
                    clobbers: seq<bool>, candidates: set<Edge>, q: Program)
    requires Good(p, c, out, n) && Progressing(n, c, AllEdges(p, c, out), current, pending, clobbers, candidates)
    requires CoalescedCode(pending, p, q)
    ensures (forall b: nat | b < |q.code| :: Passes(q.code[b])) <==> AllDistinct(p)
    ensures AllDistinct(p) ==> AllDistinct(q)
  {
    hide Cfg.Valid, LiveAt, Covers, AllEdges, ClobberedAlone, Within, Numbered, Typed, Unreserved, SomeMerged;
    hide PassesCheck, DistinctOperands, Coalesced;
    forall b: nat, k: nat | b < |p.code| && k < |p.code[b]|
      ensures |q.code[b]| == |p.code[b]| && (PassesCheck(q.code[b][k]) <==> DistinctOperands(p.code[b][k]))
      ensures DistinctOperands(p.code[b][k]) ==> DistinctOperands(q.code[b][k])
    {
      assert CoalescedBlock(pending, p.code[b], q.code[b]);
      SelectionDrawn(p, c, out, b, k);
      GoodInstruction(p, c, out, n, b, k);
      CheckIsDistinct(n, c, pending, AllEdges(p, c, out), current, p.code[b][k]);
    }
    forall b: nat | b < |q.code|
      ensures |q.code[b]| == |p.code[b]|
    {
      assert CoalescedBlock(pending, p.code[b], q.code[b]);
    }
  }

  lemma SelectionDrawn(p: Program, c: Context, out: seq<set<nat>>, b: nat, k: nat)
    requires Fits(p, c, out) && b < |p.code| && k < |p.code[b]|
    ensures SelectionEdges(c, p.code[b][k]) <= AllEdges(p, c, out)
  {
    hide LiveAt, AllEdges, ForcedEdges, CallEdges, ExcludedEdges, ResultEdges, SelectionEdges;
    EdgeOfProgram(p, c, out, b, k);
  }

  lemma CandidateInRange(p: Program, c: Context, kind: Class, out: seq<set<nat>>, n: nat, b: nat, k: nat, e: Edge)
    requires Good(p, c, out, n) && Fits(p, c, out) && CandidateAt(p, c, kind, b, k, e)
    ensures RESERVED < e.0 <= n && RESERVED < e.1 <= n && c.ClassOf(e.0) == c.ClassOf(e.1)
    ensures c.TypeOf(e.0) == c.TypeOf(e.1) || Has(AllEdges(p, c, out), e.1, e.0)
  {
    hide Good, Fits, AllEdges, Next, Has;
    var i := p.code[b][k];
    GoodInstruction(p, c, out, n, b, k);
    assert i.dst in Mentioned(i) && i.src1 in Mentioned(i);
    if i.op != Move && !Has(AllEdges(p, c, out), e.1, e.0) {
      assert c.instrsel by { GoodSelects(p, c, out, n); }
      CandidateIsMove(p, c, kind, out, b, k);
    }
  }

  lemma CandidatesInRange(p: Program, c: Context, kind: Class, out: seq<set<nat>>, n: nat, candidates: set<Edge>)
    requires Good(p, c, out, n) && Fits(p, c, out) && FromCode(p, c, kind, candidates)
    ensures CandidatesOk(n, c, AllEdges(p, c, out), candidates)
  {
    hide Good, Fits, AllEdges, CandidateAt, Has;
    forall e | e in candidates
      ensures RESERVED < e.0 <= n && RESERVED < e.1 <= n && c.ClassOf(e.0) == c.ClassOf(e.1)
      ensures c.TypeOf(e.0) == c.TypeOf(e.1) || Has(AllEdges(p, c, out), e.1, e.0)
    {
      var b: nat, k: nat :| CandidateAt(p, c, kind, b, k, e);
      CandidateInRange(p, c, kind, out, n, b, k, e);
    }
  }

  lemma DemandedAlone(p: Program, c: Context, out: seq<set<nat>>, n: nat, clobbers: seq<bool>,
                      pending: Renames)
    requires Good(p, c, out, n)
      && AllMarked(p, c, clobbers, |p.code|, 0) && |clobbers| == n + 1 && ClobberedAlone(clobbers, pending)
    ensures forall b: nat, k: nat, v: nat | DemandsAt(p, c, b, k, v) ::
              RepOf(pending)(v) == v && forall u: nat | RepOf(pending)(u) == v :: u == v
  {
    hide Cfg.Valid, Covers, MovesUnary, Typed, Unreserved;
    forall b: nat, k: nat, v: nat | DemandsAt(p, c, b, k, v)
      ensures RepOf(pending)(v) == v && forall u: nat | RepOf(pending)(u) == v :: u == v
    {
      assert InGraph(n, p.code[b][k]);
      assert clobbers[v];
    }
  }

  // What is left

  /** An instruction demands some register for this vreg. */
  ghost predicate Demanded(p: Program, c: Context, v: nat) {
    exists b: nat, k: nat :: DemandsAt(p, c, b, k, v)
  }

  /** The ends of a move interfere, or one of them must be in some register. */
  ghost predicate Blocked(p: Program, c: Context, out: seq<set<nat>>, d: nat, s: nat)
    requires Fits(p, c, out)
  {
    Has(AllEdges(p, c, out), s, d) || Demanded(p, c, d) || Demanded(p, c, s)
  }

  /** All IR_MOVEs of the class that are left between operands of one type are blocked. */
  ghost predicate Exhausted(p: Program, c: Context, kind: Class, out: seq<set<nat>>)
    requires Fits(p, c, out)
  {
    forall b: nat, k: nat | b < |p.code| && k < |p.code[b]| && p.code[b][k].op == Move && p.code[b][k].dst != 0
        && p.code[b][k].src1 != 0 && c.ClassOf(p.code[b][k].dst) == kind ::
      Blocked(p, c, out, p.code[b][k].dst, p.code[b][k].src1)
  }

  ghost predicate StillBlocked(p: Program, c: Context, kind: Class, out: seq<set<nat>>) {
    Fits(p, c, out) && Exhausted(p, c, kind, out)
  }

  /** Choices that merge nothing had nothing to merge. */
  lemma ChosenExhausts(p: Program, c: Context, kind: Class, out: seq<set<nat>>, n: nat, current: set<Edge>,
                       clobbers: seq<bool>, candidates: set<Edge>)
    requires Fits(p, c, out) && Chosen(p, c, kind, out, n, map[], current, clobbers, candidates)
    ensures StillBlocked(p, c, kind, out)
  {
    hide AllEdges, Next, DemandsAt, Settled, CoversMembers, ClobberedAlone, Within, FromCode, AllMarked, Has;
    forall b: nat, k: nat | b < |p.code| && k < |p.code[b]| && p.code[b][k].op == Move && p.code[b][k].dst != 0
        && p.code[b][k].src1 != 0 && c.ClassOf(p.code[b][k].dst) == kind
      ensures Blocked(p, c, out, p.code[b][k].dst, p.code[b][k].src1)
    {
      var e := (p.code[b][k].dst, p.code[b][k].src1);
      assert CandidateAt(p, c, kind, b, k, e);
      assert e in candidates;
      HandledMeans(AllEdges(p, c, out), clobbers, e);
    }
  }

  lemma HandledMeans(current: set<Edge>, clobbers: seq<bool>, e: Edge)
    requires Handled(map[], current, clobbers, e)
    ensures Has(current, e.1, e.0) || (e.0 < |clobbers| && clobbers[e.0]) || (e.1 < |clobbers| && clobbers[e.1])
  {
  }

  /** No IR_MOVE has one vreg at both ends. */
  ghost predicate NoSelfMoves(p: Program) {
    forall b: nat, k: nat | b < |p.code| && k < |p.code[b]| && IsIrMove(p.code[b][k]) && p.code[b][k].dst != 0 ::
      p.code[b][k].dst != p.code[b][k].src1
  }

  lemma CoalescedNoSelfMoves(p: Program, q: Program, pending: Renames)
    requires CoalescedCode(pending, p, q)
    ensures NoSelfMoves(q)
  {
    forall b: nat, k: nat | b < |q.code| && k < |q.code[b]| && IsIrMove(q.code[b][k]) && q.code[b][k].dst != 0
      ensures q.code[b][k].dst != q.code[b][k].src1
    {
      assert CoalescedBlock(pending, p.code[b], q.code[b]);
      assert q.code[b][k] == Coalesced(pending, p.code[b][k]);
    }
  }

  /** Renaming nothing changes nothing but self moves. */
  lemma NothingRenamed(p: Program, q: Program)
    requires CoalescedCode(map[], p, q) && NoSelfMoves(p)
    ensures q == p
  {
    forall b: nat | b < |p.code| ensures q.code[b] == p.code[b] {
      assert CoalescedBlock(map[], p.code[b], q.code[b]);
      forall k: nat | k < |p.code[b]| ensures q.code[b][k] == p.code[b][k] {
        assert q.code[b][k] == Coalesced(map[], p.code[b][k]);
      }
    }
    assert q.code == p.code;
  }

  // What a round leaves alone: the other class

  /** Only vregs of class `kind` are renamed, and to such. */
  lemma OthersStay(n: nat, c: Context, kind: Class, pending: Renames, candidates: set<Edge>, v: nat)
    requires Settled(n, c, pending) && ToResults(c, kind, pending, candidates)
    ensures c.ClassOf(v) != kind ==> Rep(pending, v) == v
    ensures c.ClassOf(Rep(pending, v)) == c.ClassOf(v)
  {
  }

  predicate OperandKept(i: Instr, j: Instr, v: nat) {
    && (v == i.dst ==> j.op == i.op && j.dst == v) && (v == i.src1 ==> j.op == i.op && j.src1 == v)
    && (v == i.src2 ==> j.op == i.op && j.src2 == v)
    && (v == j.dst ==> v == i.dst) && (v == j.src1 ==> v == i.src1) && (v == j.src2 ==> v == i.src2)
  }

  /** An instruction with an operand of another class is not dropped. */
  lemma OperandStays(n: nat, c: Context, kind: Class, pending: Renames, candidates: set<Edge>, i: Instr, v: nat)
    requires Settled(n, c, pending) && ToResults(c, kind, pending, candidates) && c.ClassOf(v) != kind && v != 0
    requires IsIrMove(i) ==> i.src2 == 0 && (i.dst != 0 ==> i.dst != i.src1)
    ensures OperandKept(i, Coalesced(pending, i), v)
  {
    hide Settled, ToResults;
    OthersStay(n, c, kind, pending, candidates, v);
    OthersStay(n, c, kind, pending, candidates, i.dst);
    OthersStay(n, c, kind, pending, candidates, i.src1);
    OthersStay(n, c, kind, pending, candidates, i.src2);
  }

  /** A round of class `kind` on code without self moves. */
  ghost predicate OtherRound(p: Program, c: Context, kind: Class, out: seq<set<nat>>, n: nat, pending: Renames,
                             candidates: set<Edge>, q: Program, now: seq<set<nat>>) {
    && Good(p, c, out, n) && Good(q, c, now, n) && NoSelfMoves(p) && Settled(n, c, pending)
    && ToResults(c, kind, pending, candidates) && CoalescedCode(pending, p, q)
    && forall b: nat | b < |out| :: now[b] == Image(pending, out[b])
  }

  lemma OtherInstruction(p: Program, c: Context, kind: Class, out: seq<set<nat>>, n: nat, pending: Renames,
                         candidates: set<Edge>, q: Program, now: seq<set<nat>>, b: nat, k: nat)
    requires OtherRound(p, c, kind, out, n, pending, candidates, q, now) && b < |p.code| && k < |p.code[b]|
    ensures b < |q.code| && |q.code[b]| == |p.code[b]| && q.code[b][k] == Coalesced(pending, p.code[b][k])
    ensures var i := p.code[b][k]; IsIrMove(i) ==> i.src2 == 0 && (i.dst != 0 ==> i.dst != i.src1)
  {
    hide Settled, ToResults, Coalesced, Good;
    GoodInstruction(p, c, out, n, b, k);
    assert CoalescedBlock(pending, p.code[b], q.code[b]);
  }

  lemma OtherSizes(p: Program, c: Context, kind: Class, out: seq<set<nat>>, n: nat, pending: Renames,
                   candidates: set<Edge>, q: Program, now: seq<set<nat>>)
    requires OtherRound(p, c, kind, out, n, pending, candidates, q, now)
    ensures |out| == |p.code| == |q.code| == |now| && Fits(p, c, out) && Fits(q, c, now)
    ensures Numbered(p, c, out, n) && Numbered(q, c, now, n)
    ensures forall b: nat | b < |p.code| :: |q.code[b]| == |p.code[b]|
  {
    hide Settled, ToResults, Cfg.Valid, Covers;
    forall b: nat | b < |p.code| ensures |q.code[b]| == |p.code[b]| {
      assert CoalescedBlock(pending, p.code[b], q.code[b]);
    }
  }

  /** What is live of the other class stays live. */
  lemma {:induction false} OtherLive(p: Program, c: Context, kind: Class, out: seq<set<nat>>, n: nat,
                                     pending: Renames, candidates: set<Edge>, q: Program, now: seq<set<nat>>, b: nat,
                                     k: nat, v: nat)
    requires OtherRound(p, c, kind, out, n, pending, candidates, q, now) && |out| == |p.code| == |q.code| == |now|
      && b < |p.code| && |q.code[b]| == |p.code[b]| && k <= |p.code[b]|
    requires c.ClassOf(v) != kind && v != 0 && v in LiveAt(p, out, b, k)
    ensures v in LiveAt(q, now, b, k)
    decreases |p.code[b]| - k
  {
    hide OtherRound, Coalesced;
    if k == |p.code[b]| {
      OtherImage(p, c, kind, out, n, pending, candidates, q, now, b, v);
    } else {
      OtherInstruction(p, c, kind, out, n, pending, candidates, q, now, b, k);
      OtherParts(p, c, kind, out, n, pending, candidates, q, now);
      OperandStays(n, c, kind, pending, candidates, p.code[b][k], v);
      if v in LiveAt(p, out, b, k + 1) {
        OtherLive(p, c, kind, out, n, pending, candidates, q, now, b, k + 1, v);
      }
    }
  }

  lemma OtherParts(p: Program, c: Context, kind: Class, out: seq<set<nat>>, n: nat, pending: Renames,
                   candidates: set<Edge>, q: Program, now: seq<set<nat>>)
    requires OtherRound(p, c, kind, out, n, pending, candidates, q, now)
    ensures Settled(n, c, pending) && ToResults(c, kind, pending, candidates)
  {
  }

  lemma OtherImage(p: Program, c: Context, kind: Class, out: seq<set<nat>>, n: nat, pending: Renames,
                   candidates: set<Edge>, q: Program, now: seq<set<nat>>, b: nat, v: nat)
    requires OtherRound(p, c, kind, out, n, pending, candidates, q, now) && b < |out| == |now| && v in out[b]
      && c.ClassOf(v) != kind
    ensures v in now[b]
  {
    hide Settled, ToResults, Good, CoalescedCode;
    OthersStay(n, c, kind, pending, candidates, v);
    assert Rep(pending, v) == v;
  }

  /** An instruction that parts two vregs of the other class still does. */
  lemma OtherPartsAt(p: Program, c: Context, kind: Class, out: seq<set<nat>>, n: nat, pending: Renames,
                     candidates: set<Edge>, q: Program, now: seq<set<nat>>, b: nat, k: nat, x: nat, y: nat)
    requires OtherRound(p, c, kind, out, n, pending, candidates, q, now) && Fits(p, c, out) && Fits(q, c, now)
    requires c.ClassOf(x) != kind && c.ClassOf(y) != kind && x != 0 && y != 0 && PartsAt(p, c, out, b, k, x, y)
    ensures PartsAt(q, c, now, b, k, x, y)
  {
    hide OtherRound, LiveAt, Coalesced;
    OtherInstruction(p, c, kind, out, n, pending, candidates, q, now, b, k);
    OtherParts(p, c, kind, out, n, pending, candidates, q, now);
    var i := p.code[b][k];
    OperandStays(n, c, kind, pending, candidates, i, x);
    OperandStays(n, c, kind, pending, candidates, i, y);
    OtherSizes(p, c, kind, out, n, pending, candidates, q, now);
    if x in LiveAt(p, out, b, k + 1) {
      OtherLive(p, c, kind, out, n, pending, candidates, q, now, b, k + 1, x);
    }
    if y in LiveAt(p, out, b, k + 1) {
      OtherLive(p, c, kind, out, n, pending, candidates, q, now, b, k + 1, y);
    }
    PartsKept(c, i, q.code[b][k], LiveAt(p, out, b, k + 1), LiveAt(q, now, b, k + 1), x, y);
    PartsKept(c, i, q.code[b][k], LiveAt(p, out, b, k + 1), LiveAt(q, now, b, k + 1), y, x);
  }

  lemma PartsKept(c: Context, i: Instr, j: Instr, after: set<nat>, after': set<nat>, x: nat, y: nat)
    requires (x in after ==> x in after') && (y in after ==> y in after') && x != 0 && y != 0
    requires OperandKept(i, j, x) && OperandKept(i, j, y)
    ensures Parts(c, i, after, x, y) ==> Parts(c, j, after', x, y)
  {
  }

  lemma OtherDemanded(p: Program, c: Context, kind: Class, out: seq<set<nat>>, n: nat, pending: Renames,
                      candidates: set<Edge>, q: Program, now: seq<set<nat>>, v: nat)
    requires OtherRound(p, c, kind, out, n, pending, candidates, q, now) && c.ClassOf(v) != kind && Demanded(p, c, v)
    ensures Demanded(q, c, v)
  {
    hide OtherRound, Coalesced;
    var b: nat, k: nat :| DemandsAt(p, c, b, k, v);
    OtherInstruction(p, c, kind, out, n, pending, candidates, q, now, b, k);
    OtherParts(p, c, kind, out, n, pending, candidates, q, now);
    OperandStays(n, c, kind, pending, candidates, p.code[b][k], v);
    assert DemandsAt(q, c, b, k, v);
  }

  /** So a round of one class leaves the moves of the other blocked. */
  lemma OtherStaysExhausted(p: Program, c: Context, kind: Class, other: Class, out: seq<set<nat>>, n: nat,
                            pending: Renames, candidates: set<Edge>, q: Program, now: seq<set<nat>>)
    requires OtherRound(p, c, kind, out, n, pending, candidates, q, now) && other != kind
    requires Fits(p, c, out) && Exhausted(p, c, other, out)
    ensures Fits(q, c, now) && Exhausted(q, c, other, now)
  {
    hide OtherRound, Coalesced, AllEdges, Demanded, Blocked, PartsAt;
    OtherSizes(p, c, kind, out, n, pending, candidates, q, now);
    OtherParts(p, c, kind, out, n, pending, candidates, q, now);
    forall b: nat, k: nat | b < |q.code| && k < |q.code[b]| && q.code[b][k].op == Move && q.code[b][k].dst != 0
        && q.code[b][k].src1 != 0 && c.ClassOf(q.code[b][k].dst) == other
      ensures Blocked(q, c, now, q.code[b][k].dst, q.code[b][k].src1)
    {
      OtherMove(p, c, kind, other, out, n, pending, candidates, q, now, b, k);
      var d, s := p.code[b][k].dst, p.code[b][k].src1;
      OtherBlocked(p, c, kind, out, n, pending, candidates, q, now, d, s);
    }
  }

  lemma OtherMove(p: Program, c: Context, kind: Class, other: Class, out: seq<set<nat>>, n: nat,
                  pending: Renames, candidates: set<Edge>, q: Program, now: seq<set<nat>>, b: nat, k: nat)
    requires OtherRound(p, c, kind, out, n, pending, candidates, q, now) && other != kind
    requires b < |p.code| && k < |p.code[b]| && b < |q.code| && k < |q.code[b]|
    requires var j := q.code[b][k]; j.op == Move && j.dst != 0 && j.src1 != 0 && c.ClassOf(j.dst) == other
    ensures var i, j := p.code[b][k], q.code[b][k];
      && i.op == Move && i.dst == j.dst && i.src1 == j.src1 && i.dst > RESERVED && i.src1 > RESERVED
      && c.ClassOf(i.src1) == other
  {
    hide OtherRound, Settled, ToResults;
    var i := p.code[b][k];
    OtherInstruction(p, c, kind, out, n, pending, candidates, q, now, b, k);
    OtherParts(p, c, kind, out, n, pending, candidates, q, now);
    OtherGood(p, c, kind, out, n, pending, candidates, q, now);
    GoodInstruction(p, c, out, n, b, k);
    OthersStay(n, c, kind, pending, candidates, i.dst);
    OthersStay(n, c, kind, pending, candidates, i.src1);
    assert i.dst in Mentioned(i);
    assert i.src1 != 0 ==> i.src1 in Mentioned(i);
    ZeroStays(n, c, pending);
  }

  lemma ZeroStays(n: nat, c: Context, pending: Renames)
    requires Settled(n, c, pending)
    ensures Rep(pending, 0) == 0
  {
  }

  lemma OtherGood(p: Program, c: Context, kind: Class, out: seq<set<nat>>, n: nat, pending: Renames,
                  candidates: set<Edge>, q: Program, now: seq<set<nat>>)
    requires OtherRound(p, c, kind, out, n, pending, candidates, q, now)
    ensures Good(p, c, out, n)
  {
  }

  lemma OtherBlocked(p: Program, c: Context, kind: Class, out: seq<set<nat>>, n: nat, pending: Renames,
                     candidates: set<Edge>, q: Program, now: seq<set<nat>>, d: nat, s: nat)
    requires OtherRound(p, c, kind, out, n, pending, candidates, q, now) && Fits(p, c, out) && Fits(q, c, now)
    requires d > RESERVED && s > RESERVED && c.ClassOf(d) != kind && c.ClassOf(s) != kind && Blocked(p, c, out, d, s)
    ensures Blocked(q, c, now, d, s)
  {
    hide OtherRound, AllEdges, Demanded, PartsAt, Has;
    OtherSizes(p, c, kind, out, n, pending, candidates, q, now);
    if Demanded(p, c, d) {
      OtherDemanded(p, c, kind, out, n, pending, candidates, q, now, d);
    } else if Demanded(p, c, s) {
      OtherDemanded(p, c, kind, out, n, pending, candidates, q, now, s);
    } else {
      VregsInterfere(p, c, out, n, s, d);
      var b: nat, k: nat :| PartsAt(p, c, out, b, k, s, d);
      OtherPartsAt(p, c, kind, out, n, pending, candidates, q, now, b, k, s, d);
      VregsInterfere(q, c, now, n, s, d);
    }
  }

  /** What choosing ends with. */
  ghost predicate Chosen(p: Program, c: Context, kind: Class, out: seq<set<nat>>, n: nat, pending: Renames,
                         current: set<Edge>, clobbers: seq<bool>, candidates: set<Edge>)
    requires Fits(p, c, out)
  {
    && Progressing(n, c, AllEdges(p, c, out), current, pending, clobbers, candidates)
    && FromCode(p, c, kind, candidates) && AllMarked(p, c, clobbers, |p.code|, 0) && |clobbers| == n + 1
    && AllFound(p, c, kind, candidates, |p.code|, 0) && OnlyDemanded(p, c, clobbers)
    && AllHandled(pending, current, clobbers, candidates) && ToResults(c, kind, pending, candidates)
  }

  lemma CandidatesOfKind(p: Program, c: Context, kind: Class, candidates: set<Edge>)
    requires FromCode(p, c, kind, candidates)
    ensures forall e | e in candidates :: c.ClassOf(e.0) == kind
  {
    hide Next, TakesCopy;
  }

  /** Build the graph, find the candidates and choose what to merge. */
  method ChooseMerges(p: Program, c: Context, kind: Class, out: seq<set<nat>>, n: nat)
    returns (pending: Renames, ghost current: set<Edge>, ghost marks: seq<bool>, ghost candidates: set<Edge>)
    requires Good(p, c, out, n) && Fits(p, c, out)
    ensures Chosen(p, c, kind, out, n, pending, current, marks, candidates)
  {
    hide Good, Progressing, FromCode, AllFound, AllMarked, OnlyDemanded, AllEdges, Draws, Numbered, Typed, Within;
    hide CandidatesOk, Cfg.Valid, AllHandled, ToResults;
    GoodParts(p, c, out, n);
    var ig := MakeInterferenceGraph(p, c, out, n);
    AllWithin(p, c, out, n);
    var found, clobbers := FindCandidates(p, c, kind, out, n);
    candidates := found;
    CandidatesInRange(p, c, kind, out, n, candidates);
    CandidatesOfKind(p, c, kind, candidates);
    marks := clobbers[..];
    pending, current := CoalesceCandidates(ig, n, c, clobbers, found, AllEdges(p, c, out), kind);
  }

  /** The choice is good: operands stay distinct, moves go away, demanded vregs stay alone. */
  lemma ChosenIsGood(p: Program, c: Context, kind: Class, out: seq<set<nat>>, n: nat, pending: Renames,
                     current: set<Edge>, clobbers: seq<bool>, candidates: set<Edge>, q: Program)
    requires Good(p, c, out, n) && Fits(p, c, out) && Chosen(p, c, kind, out, n, pending, current, clobbers, candidates)
    requires CoalescedCode(pending, p, q)
    ensures Settled(n, c, pending) && Moves(q.code) <= Moves(p.code)
      && (pending != map[] ==> Moves(q.code) < Moves(p.code))
    ensures (forall b: nat | b < |q.code| :: Passes(q.code[b])) <==> AllDistinct(p)
    ensures AllDistinct(p) ==> AllDistinct(q)
    ensures forall b: nat, k: nat, v: nat | DemandsAt(p, c, b, k, v) ::
              RepOf(pending)(v) == v && forall u: nat | RepOf(pending)(u) == v :: u == v
  {
    hide Good, CoalescedCode, FromCode, AllMarked, AllEdges, Passes, AllDistinct, Settled, CoversMembers;
    hide AllFound, OnlyDemanded, AllHandled, ToResults;
    hide ClobberedAlone, SomeMerged, DemandsAt, Moves;
    DemandedAlone(p, c, out, n, clobbers, pending);
    RoundChecks(p, c, out, n, pending, current, clobbers, candidates, q);
    ChangeRemovesMove(p, c, kind, out, n, pending, current, clobbers, candidates, q);
  }

  lemma ChosenNothing(p: Program, c: Context, kind: Class, out: seq<set<nat>>, n: nat, pending: Renames,
                      current: set<Edge>, clobbers: seq<bool>, candidates: set<Edge>, q: Program)
    requires Good(p, c, out, n) && Fits(p, c, out) && Chosen(p, c, kind, out, n, pending, current, clobbers, candidates)
    requires CoalescedCode(pending, p, q) && Moves(p.code) == 0
    ensures pending == map[] && q == p
  {
    hide Good, Fits, CoalescedCode, FromCode, AllMarked, AllEdges, Progressing;
    NothingMerged(p, c, kind, out, n, pending, current, clobbers, candidates, q);
  }

  lemma SameImages(was: seq<set<nat>>, now: seq<set<nat>>)
    requires |now| == |was| && forall b | 0 <= b < |was| :: now[b] == Image(map[], was[b])
    ensures now == was
  {
    forall b | 0 <= b < |was| ensures now[b] == was[b] { SameImage(was[b]); }
  }

  lemma SameImage(s: set<nat>)
    ensures Image(map[], s) == s
  {
    forall v | v in s ensures v in Image(map[], s) { assert Rep(map[], v) == v; }
  }

  /** The effect of a round on the moves of the other class. */
  lemma ChosenSpares(p: Program, c: Context, kind: Class, out: seq<set<nat>>, n: nat, pending: Renames,
                     current: set<Edge>, clobbers: seq<bool>, candidates: set<Edge>, q: Program, now: seq<set<nat>>)
    requires Good(p, c, out, n) && Good(q, c, now, n) && Fits(p, c, out) && CoalescedCode(pending, p, q)
      && Chosen(p, c, kind, out, n, pending, current, clobbers, candidates)
      && |now| == |out| && forall b: nat | b < |out| :: now[b] == Image(pending, out[b])
    ensures NoSelfMoves(p) ==> forall other: Class | other != kind && StillBlocked(p, c, other, out) ::
              StillBlocked(q, c, other, now)
  {
    hide Good, Exhausted, CoalescedCode, Image, NoSelfMoves, Settled, ToResults, AllEdges;
    if NoSelfMoves(p) {
      assert OtherRound(p, c, kind, out, n, pending, candidates, q, now);
      forall other: Class | other != kind && StillBlocked(p, c, other, out) ensures StillBlocked(q, c, other, now) {
        OtherStaysExhausted(p, c, kind, other, out, n, pending, candidates, q, now);
      }
    }
  }

  /** One round: a new graph, candidates, choices, new code and liveout sets. Vregs that must be in some register are
      not merged; if the check is made and fails, the round gives up. */
  method Round(p: Program, c: Context, kind: Class, liveout: array<set<nat>>, n: nat, check: bool)
    returns (fine: bool, changed: bool, q: Program, ghost at: Placement)
    requires Good(p, c, liveout[..], n)
    modifies liveout
    ensures fine <==> !check || AllDistinct(p)
    ensures AllDistinct(p) ==> AllDistinct(q)
    ensures fine ==> Good(q, c, liveout[..], n) && Merges(p, old(liveout[..]), q, liveout[..], c, at)
    ensures Moves(q.code) <= Moves(p.code) && (changed ==> Moves(q.code) < Moves(p.code))
    ensures Moves(p.code) == 0 ==> q == p && (fine ==> liveout[..] == old(liveout[..]))
    ensures !changed ==> StillBlocked(p, c, kind, old(liveout[..]))
    ensures !changed ==> CoalescedCode(map[], p, q) && (fine ==> liveout[..] == old(liveout[..]))
    ensures NoSelfMoves(q) && (NoSelfMoves(p) && !changed ==> q == p)
    ensures fine && NoSelfMoves(p) ==>
              forall other: Class | other != kind && StillBlocked(p, c, other, old(liveout[..])) ::
                StillBlocked(q, c, other, liveout[..])
    ensures forall b: nat, k: nat, v: nat | DemandsAt(p, c, b, k, v) ::
              at(v) == v && forall u: nat | at(u) == v :: u == v
  {
    hide Good, CoalescedCode, AllDistinct, Merges, Chosen, AllEdges, Passes, Cfg.Valid, Settled, DemandsAt, Image;
    hide NoSelfMoves, Exhausted, StillBlocked, Fits, Moves;
    ghost var out := liveout[..];
    GoodParts(p, c, out, n);
    var pending;
    ghost var current, marks, candidates;
    pending, current, marks, candidates := ChooseMerges(p, c, kind, liveout[..], n);
    at := RepOf(pending);
    changed := pending != map[];
    fine, q := RewriteCode(pending, p);
    ChosenIsGood(p, c, kind, out, n, pending, current, marks, candidates, q);
    if Moves(p.code) == 0 { ChosenNothing(p, c, kind, out, n, pending, current, marks, candidates, q); }
    CoalescedNoSelfMoves(p, q, pending);
    if pending == map[] {
      ChosenExhausts(p, c, kind, out, n, current, marks, candidates);
      if NoSelfMoves(p) { NothingRenamed(p, q); }
    }
    fine := fine || !check;
    if fine {
      MigrateLiveouts(liveout, pending, n, c);
      if pending == map[] { SameImages(out, liveout[..]); }
      ChosenEnds(p, c, kind, out, n, pending, current, marks, candidates, q, liveout[..]);
      ChosenSpares(p, c, kind, out, n, pending, current, marks, candidates, q, liveout[..]);
    }
  }

  lemma ChosenEnds(p: Program, c: Context, kind: Class, out: seq<set<nat>>, n: nat, pending: Renames,
                   current: set<Edge>, clobbers: seq<bool>, candidates: set<Edge>, q: Program, now: seq<set<nat>>)
    requires Good(p, c, out, n) && Fits(p, c, out) && Chosen(p, c, kind, out, n, pending, current, clobbers, candidates)
    requires CoalescedCode(pending, p, q) && q.Valid()
      && |now| == |out| && forall b: nat | b < |out| :: now[b] == Image(pending, out[b])
    ensures Good(q, c, now, n) && Merges(p, out, q, now, c, RepOf(pending))
  {
    hide Cfg.Valid, Good, Progressing, CoalescedCode, Merges, Image, AllEdges;
    RoundKeepsGood(p, c, out, n, pending, current, clobbers, candidates, q, now);
    RoundMerges(p, c, out, n, pending, current, clobbers, candidates, q, now);
  }

  /** Rounds for one register class until one changes nothing. The rounds end because each removes a move. `last` is
      the code before the last round: all its moves of the class are blocked, and what comes out is the same up to
      self moves. */
  method CoalesceLiveRangesForPreg(p: Program, c: Context, kind: Class, liveout: array<set<nat>>, n: nat, check: bool)
    returns (fine: bool, q: Program, ghost at: Placement, ghost last: Program)
    requires Good(p, c, liveout[..], n)
    modifies liveout
    ensures fine <==> !check || AllDistinct(p)
    ensures fine ==> Good(q, c, liveout[..], n) && Merges(p, old(liveout[..]), q, liveout[..], c, at)
    ensures fine ==> (AllDistinct(p) ==> AllDistinct(q)) && Moves(q.code) <= Moves(p.code)
    ensures fine && Moves(p.code) == 0 ==> q == p && liveout[..] == old(liveout[..])
    ensures fine ==> StillBlocked(last, c, kind, liveout[..]) && CoalescedCode(map[], last, q) && NoSelfMoves(q)
    ensures fine ==> last == q || (last == p && !NoSelfMoves(p) && liveout[..] == old(liveout[..]))
    ensures fine && NoSelfMoves(p) ==>
              forall other: Class | other != kind && StillBlocked(p, c, other, old(liveout[..])) ::
                StillBlocked(q, c, other, liveout[..])
  {
    hide Good, AllDistinct, Merges, Cfg.Valid, StillBlocked, NoSelfMoves, CoalescedCode;
    q, at, last := p, Identity(), p;
    ghost var out := liveout[..];
    MergesNothing(p, c, out, n);
    fine := true;
    var changed := true;
    while changed
      invariant Good(q, c, liveout[..], n) && Merges(p, out, q, liveout[..], c, at)
      invariant (AllDistinct(p) ==> AllDistinct(q)) && Moves(q.code) <= Moves(p.code)
      invariant fine && (!changed ==> !check || AllDistinct(p))
      invariant q == p || !check || AllDistinct(p)
      invariant Moves(p.code) == 0 ==> q == p && liveout[..] == out
      invariant NoSelfMoves(q) || (changed && q == p && liveout[..] == out)
      invariant !changed ==> StillBlocked(last, c, kind, liveout[..]) && CoalescedCode(map[], last, q) && NoSelfMoves(q)
      invariant !changed ==> last == q || (last == p && !NoSelfMoves(p) && liveout[..] == out)
      invariant NoSelfMoves(p) ==> forall other: Class | other != kind && StillBlocked(p, c, other, out) ::
                  StillBlocked(q, c, other, liveout[..])
      decreases Moves(q.code), changed
    {
      ghost var mid := liveout[..];
      var next;
      ghost var step;
      fine, changed, next, step := Round(q, c, kind, liveout, n, check);
      if !fine { return; }
      MergesCompose(p, out, q, mid, next, liveout[..], c, at, step);
      at, last := Compose(at, step), q;
      q := next;
    }
  }

  // Both classes

  lemma LiveIsUsed(p: Program, f: Facts, b: nat, v: nat)
    requires FactsOf(p, f) && LiveOut(f, b, v)
    ensures exists a: nat, k: nat :: a < |p.code| && k < |p.code[a]| && Uses(p.code[a][k], v)
  {
    hide Cfg.Valid;
    var w :| LiveAlong(f, w, b, v);
    var a := w[|w| - 1];
    assert BlockFacts(p, a, f.uevar[a], f.varkill[a]);
    assert Exposed(p, a, v);
    var k :| 0 <= k < |p.code[a]| && Uses(p.code[a][k], v) && !DefinedBefore(p, a, k, v);
    assert Uses(p.code[a][k], v);
  }

  /** The numbers in the code are good, before liveout sets are known. */
  ghost predicate CodeGood(p: Program, c: Context, n: nat) {
    && p.Valid() && MovesUnary(p) && Typed(p, c) && c.instrsel && RESERVED <= n
    && |c.demands| == |p.code| && (forall b | 0 <= b < |p.code| :: |c.demands[b]| == |p.code[b]|)
    && (forall b, k | 0 <= b < |p.code| && 0 <= k < |p.code[b]| ::
          InGraph(n, p.code[b][k]) && Reserved(c.demands[b][k]) && AllAbove(Mentioned(p.code[b][k])))
  }

  lemma StartIsGood(p: Program, c: Context, n: nat, f: Facts, out: seq<set<nat>>)
    requires CodeGood(p, c, n) && FactsOf(p, f) && |out| == |p.code|
    requires forall b: nat, v: nat | b < |out| :: v in out[b] <==> LiveOut(f, b, v)
    ensures Good(p, c, out, n)
  {
    hide Cfg.Valid, LiveOut, FactsOf, LiveAt, Typed, MovesUnary;
    LiveoutCovers(p, f, out);
    forall b: nat, v | b < |out| && v in out[b] ensures Vreg(n, v) && v > RESERVED {
      LiveIsUsed(p, f, b, v);
      var a: nat, k: nat :| a < |p.code| && k < |p.code[a]| && Uses(p.code[a][k], v);
      assert InGraph(n, p.code[a][k]) && AllAbove(Mentioned(p.code[a][k]));
      assert v in Mentioned(p.code[a][k]);
    }
    forall b | 0 <= b < |out| ensures AllVregs(n, out[b]) && AllAbove(out[b]) {}
  }

  /** Liveness, then coalescing of integer and of floating point live ranges. `out` are the vregs live at the ends of
      the blocks of the old program, `liveout` the sets that the passes after this one work with. */
  method CoalesceLiveRanges(p: Program, c: Context, n: nat, check: bool)
    returns (fine: bool, q: Program, liveout: array<set<nat>>, ghost facts: Facts, ghost out: seq<set<nat>>,
        ghost at: Placement)
    requires CodeGood(p, c, n)
    ensures FactsOf(p, facts) && |out| == |p.code| && forall b: nat, v: nat | b < |out| ::
              v in out[b] <==> LiveOut(facts, b, v)
    ensures fine <==> !check || AllDistinct(p)
    ensures fine ==> Good(q, c, liveout[..], n) && Merges(p, out, q, liveout[..], c, at)
    ensures fine ==> (AllDistinct(p) ==> AllDistinct(q)) && Moves(q.code) <= Moves(p.code)
    ensures fine && Moves(p.code) == 0 ==> q == p && liveout[..] == out
    ensures fine ==> StillBlocked(q, c, Sse, liveout[..])
    ensures fine ==> StillBlocked(q, c, Int, liveout[..]) || (!NoSelfMoves(p) && StillBlocked(p, c, Int, out))
  {
    hide Good, AllDistinct, Merges, Cfg.Valid, CodeGood, FactsOf, LiveOut, Moves, StillBlocked, NoSelfMoves;
    CodeIsValid(p, c, n);
    var uevar, varkill := MakeUevarAndVarkill(p);
    var f := Facts(p.g, uevar[..], varkill[..]);
    facts := f;
    FactsValid(p, f);
    liveout := MakeLiveout(f);
    out := liveout[..];
    StartIsGood(p, c, n, f, out);
    ghost var last;
    fine, q, at, last := CoalesceLiveRangesForPreg(p, c, Int, liveout, n, check);
    if fine {
      ghost var mid, atInt, half := liveout[..], at, q;
      var r;
      fine, r, at, last := CoalesceLiveRangesForPreg(q, c, Sse, liveout, n, check);
      if fine {
        MergesCompose(p, out, q, mid, r, liveout[..], c, atInt, at);
        at := Compose(atInt, at);
        q := r;
      }
    }
  }

  lemma CodeIsValid(p: Program, c: Context, n: nat)
    requires CodeGood(p, c, n)
    ensures p.Valid()
  {
  }

  lemma FactsValid(p: Program, f: Facts)
    requires FactsOf(p, f)
    ensures f.Valid() && |f.g.succ| == |p.code|
  {
  }
}
