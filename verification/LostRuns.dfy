/** A conversion that loses its source shows in some run (ssa.c:1471-1477). */
module LostRuns {
  import opened Cfgs
  import opened Ir
  import opened LocalUse
  import opened EdgeMatrix
  import opened Separation
  import opened Interference
  import opened EdgeMeaning
  import opened InterferenceSound

  // The program on locations

  function PlacedBlock(at: Placement, code: seq<Instr>): (r: seq<Instr>)
    ensures |r| == |code| && forall k | 0 <= k < |code| :: r[k] == Placed(at, code[k])
  {
    seq(|code|, k requires 0 <= k < |code| => Placed(at, code[k]))
  }

  function PlacedProgram(at: Placement, p: Program): (r: Program)
    ensures r.g == p.g && |r.code| == |p.code|
    ensures forall b | 0 <= b < |p.code| :: r.code[b] == PlacedBlock(at, p.code[b])
  {
    Program(seq(|p.code|, b requires 0 <= b < |p.code| => PlacedBlock(at, p.code[b])), p.g)
  }

  lemma PlacedIsRewritten(at: Placement, p: Program)
    requires p.Valid()
    ensures PlacedProgram(at, p).Valid() && Rewritten(p, PlacedProgram(at, p), at)
  {
    hide Cfg.Valid;
  }

  // Operations that tell when they were executed

  function BlockBound(code: seq<Instr>): (r: nat)
    ensures r > 0
  {
    if code == [] then 1
    else if code[0].imm >= BlockBound(code[1..]) then code[0].imm + 1
    else BlockBound(code[1..])
  }

  /** A number above all immediate parts. */
  function Bound(code: seq<seq<Instr>>): (r: nat)
    ensures r > 0
  {
    if code == [] then 1
    else if BlockBound(code[0]) >= Bound(code[1..]) then BlockBound(code[0])
    else Bound(code[1..])
  }

  lemma {:induction false} BelowBlockBound(code: seq<Instr>, k: nat)
    requires k < |code|
    ensures code[k].imm < BlockBound(code)
  {
    if k > 0 { BelowBlockBound(code[1..], k - 1); }
  }

  lemma {:induction false} BelowBound(code: seq<seq<Instr>>, b: nat, k: nat)
    requires b < |code| && k < |code[b]|
    ensures code[b][k].imm < Bound(code)
  {
    if b == 0 { BelowBlockBound(code[0], k); } else { BelowBound(code[1..], b - 1, k); }
  }

  function FirstOf(h: History, n: nat): History {
    if n <= |h| then h[..n] else h
  }

  /** Every operation makes a number of its own, above `bound`; branches go as in the run of `sem` with the history
      `seen`. */
  function Telling(bound: nat, sem: Semantics, seen: History): Semantics {
    Semantics((h: History, op: Op, imm: int, a: int, b: int) => if op == Nop then 0 else |h| + bound,
              (h: History, b: nat) => sem.branch(FirstOf(seen, |h|), b))
  }

  // Runs

  lemma StepGrows(p: Program, sem: Semantics, s: State)
    requires p.Valid()
    ensures s.history <= Step(p, sem, s).history && |Step(p, sem, s).history| <= |s.history| + 1
  {
    hide Cfg.Valid, NextBlock;
  }

  lemma {:induction false} HistoryGrows(p: Program, sem: Semantics, env: Env, t: nat, n: nat)
    requires p.Valid() && t <= n
    ensures Run(p, sem, env, t).history <= Run(p, sem, env, n).history
    decreases n - t
  {
    hide Cfg.Valid, Step;
    if t < n {
      StepGrows(p, sem, Run(p, sem, env, t));
      HistoryGrows(p, sem, env, t + 1, n);
    }
  }

  /** At the same instruction, having done as much. */
  predicate InStep(a: State, c: State) {
    a.block == c.block && a.index == c.index && |a.history| == |c.history|
  }

  lemma JumpInStep(g: Cfg, sem: Semantics, bound: nat, seen: History, h: History, h': History, b: nat)
    requires b < |g.succ| && g.succ[b] != [] && |h| == |h'| && h <= seen
    ensures NextBlock(g, sem, h, b) == NextBlock(g, Telling(bound, sem, seen), h', b)
  {
    assert FirstOf(seen, |h'|) == h;
  }

  lemma StepInStep(p: Program, sem: Semantics, bound: nat, seen: History, a: State, c: State)
    requires p.Valid() && InStep(a, c) && a.history <= seen
    ensures InStep(Step(p, sem, a), Step(p, Telling(bound, sem, seen), c))
  {
    hide Cfg.Valid, Value, Write, Read, Telling, NextBlock;
    if a.block < |p.code| && p.g.succ[a.block] != [] {
      JumpInStep(p.g, sem, bound, seen, a.history, c.history, a.block);
    }
  }

  /** The run that tells goes where the other one went. */
  lemma {:induction false} TellingInStep(p: Program, sem: Semantics, bound: nat, env: Env, n: nat, t: nat)
    requires p.Valid() && t <= n
    ensures InStep(Run(p, sem, env, t), Run(p, Telling(bound, sem, Run(p, sem, env, n).history), map[], t))
  {
    hide Cfg.Valid, Step, InStep, Telling;
    if t > 0 {
      TellingInStep(p, sem, bound, env, n, t - 1);
      HistoryGrows(p, sem, env, t - 1, n);
      var seen := Run(p, sem, env, n).history;
      StepInStep(p, sem, bound, seen, Run(p, sem, env, t - 1), Run(p, Telling(bound, sem, seen), map[], t - 1));
    } else {
      assert InStep(Run(p, sem, env, 0), Run(p, Telling(bound, sem, Run(p, sem, env, n).history), map[], 0)) by {
        StartsInStep(env, map[]);
      }
    }
  }

  lemma StartsInStep(env: Env, env': Env)
    ensures InStep(State(0, 0, env, []), State(0, 0, env', []))
  {
  }

  lemma PlacedStepInStep(p: Program, at: Placement, sem: Semantics, bound: nat, seen: History, a: State, c: State)
    requires p.Valid() && PlacedProgram(at, p).Valid() && InStep(a, c)
    ensures var tell := Telling(bound, sem, seen);
      InStep(Step(p, tell, a), Step(PlacedProgram(at, p), tell, c))
  {
    hide Cfg.Valid, Value, Write, Read, FirstOf;
  }

  /** And so does the program on locations. */
  lemma {:induction false} PlacedInStep(p: Program, at: Placement, sem: Semantics, bound: nat, seen: History, t: nat)
    requires p.Valid() && PlacedProgram(at, p).Valid()
    ensures var tell := Telling(bound, sem, seen);
      InStep(Run(p, tell, map[], t), Run(PlacedProgram(at, p), tell, map[], t))
  {
    hide Cfg.Valid, Step, InStep, Telling;
    if t > 0 {
      PlacedInStep(p, at, sem, bound, seen, t - 1);
      var tell := Telling(bound, sem, seen);
      PlacedStepInStep(p, at, sem, bound, seen, Run(p, tell, map[], t - 1),
                       Run(PlacedProgram(at, p), tell, map[], t - 1));
    } else {
      StartsInStep(map[], map[]);
    }
  }

  // Values

  /** All values are of operations done before, or no results of operations. */
  ghost predicate Small(bound: nat, s: State) {
    forall v | v in s.env :: s.env[v] < |s.history| + bound
  }

  lemma ValueSmall(bound: nat, sem: Semantics, seen: History, i: Instr, env: Env, h: History)
    requires bound > 0 && i.imm < bound && forall v | v in env :: env[v] < |h| + bound
    ensures var x := Value(Telling(bound, sem, seen), h, i, Read(env, i.src1), Read(env, i.src2));
      x < |h| + bound || (!IsSilent(i) && x == |h| + bound)
  {
  }

  lemma StepSmall(p: Program, sem: Semantics, seen: History, s: State)
    requires p.Valid() && Small(Bound(p.code), s)
    ensures Small(Bound(p.code), Step(p, Telling(Bound(p.code), sem, seen), s))
  {
    hide Cfg.Valid, NextBlock, Bound, Value, Telling;
    if s.block < |p.code| && s.index < |p.code[s.block]| {
      BelowBound(p.code, s.block, s.index);
      ValueSmall(Bound(p.code), sem, seen, p.code[s.block][s.index], s.env, s.history);
    }
  }

  lemma {:induction false} RunSmall(p: Program, sem: Semantics, seen: History, t: nat)
    requires p.Valid()
    ensures Small(Bound(p.code), Run(p, Telling(Bound(p.code), sem, seen), map[], t))
  {
    hide Cfg.Valid, Step, Telling;
    if t > 0 {
      RunSmall(p, sem, seen, t - 1);
      hide Small;
      StepSmall(p, sem, seen, Run(p, Telling(Bound(p.code), sem, seen), map[], t - 1));
    }
  }

  // From the conversion to the use

  predicate AtInstruction(p: Program, s: State) {
    s.block < |p.code| && s.index < |p.code[s.block]|
  }

  function InstructionAt(p: Program, s: State): Instr
    requires AtInstruction(p, s)
  {
    p.code[s.block][s.index]
  }

  /** From step `t` on `v` is not written before step `n`, where an instruction that is logged reads it. */
  ghost predicate ReadAt(p: Program, sem: Semantics, env: Env, t: nat, n: nat, v: nat)
    requires p.Valid()
  {
    && (forall u: nat | t <= u < n && AtInstruction(p, Run(p, sem, env, u)) ::
          InstructionAt(p, Run(p, sem, env, u)).dst != v)
    && AtInstruction(p, Run(p, sem, env, n))
    && var i := InstructionAt(p, Run(p, sem, env, n)); !IsSilent(i) && (i.src1 == v || i.src2 == v)
  }

  /** A step at which `v` is not written leaves it live, if it is live afterwards. */
  lemma LiveBefore(p: Program, out: seq<set<nat>>, sem: Semantics, s: State, v: nat)
    requires p.Valid() && Covers(p, out) && s.block < |p.code| && s.index <= |p.code[s.block]|
    requires AtInstruction(p, s) ==> InstructionAt(p, s).dst != v
    requires var n := Step(p, sem, s);
      n.block < |p.code| && n.index <= |p.code[n.block]| && v in LiveAt(p, out, n.block, n.index)
    ensures v in LiveAt(p, out, s.block, s.index)
  {
    hide Cfg.Valid, Execute, NextBlock;
    if !AtInstruction(p, s) && p.g.succ[s.block] != [] {
      NextIsEdge(p, sem, s.history, s.block);
    }
  }

  lemma StepInside(p: Program, sem: Semantics, s: State)
    requires p.Valid() && s.block < |p.code| && s.index <= |p.code[s.block]|
    ensures var n := Step(p, sem, s); n.block < |p.code| && n.index <= |p.code[n.block]|
  {
    hide Cfg.Valid, Execute, NextBlock;
    if s.index == |p.code[s.block]| && p.g.succ[s.block] != [] { NextIsEdge(p, sem, s.history, s.block); }
  }

  lemma {:induction false} RunInside(p: Program, sem: Semantics, env: Env, t: nat)
    requires p.Valid() && |p.code| > 0
    ensures var n := Run(p, sem, env, t); n.block < |p.code| && n.index <= |p.code[n.block]|
  {
    hide Cfg.Valid, Step;
    if t > 0 {
      RunInside(p, sem, env, t - 1);
      StepInside(p, sem, Run(p, sem, env, t - 1));
    }
  }

  /** What is read later is live. */
  lemma {:induction false} ReadIsLive(p: Program, out: seq<set<nat>>, sem: Semantics, env: Env, t: nat, n: nat, v: nat)
    requires p.Valid() && Covers(p, out) && t <= n && v != 0 && ReadAt(p, sem, env, t, n, v)
    ensures var s := Run(p, sem, env, t);
      s.block < |p.code| && s.index <= |p.code[s.block]| && v in LiveAt(p, out, s.block, s.index)
    decreases n - t
  {
    hide Cfg.Valid, Step, Covers;
    RunInside(p, sem, env, t);
    if t < n {
      ReadIsLive(p, out, sem, env, t + 1, n, v);
      hide ReadAt;
      UnwrittenAt(p, sem, env, t, n, v);
      LiveBefore(p, out, sem, Run(p, sem, env, t), v);
    }
  }

  lemma UnwrittenAt(p: Program, sem: Semantics, env: Env, t: nat, n: nat, v: nat)
    requires p.Valid() && t < n && ReadAt(p, sem, env, t, n, v)
    ensures AtInstruction(p, Run(p, sem, env, t)) ==> InstructionAt(p, Run(p, sem, env, t)).dst != v
    ensures ReadAt(p, sem, env, t + 1, n, v)
  {
    hide Cfg.Valid, Run;
  }

  // The value is lost

  /** Where the program on locations keeps `v` there is a value from `low` on, while the value of `v` is below. */
  ghost predicate Split(a: State, c: State, v: nat, low: int) {
    Read(a.env, v) < low <= Read(c.env, v)
  }

  lemma ConversionSplits(p: Program, sem: Semantics, bound: nat, seen: History, a: State, c: State)
    requires p.Valid() && AtInstruction(p, a) && InStep(a, c) && bound > 0 && Small(bound, a)
    requires var i := InstructionAt(p, a); Converts(i) && i.dst != 0 && i.src1 != 0 && i.dst != i.src1
    requires PlacedProgram(Joining(InstructionAt(p, a).dst, InstructionAt(p, a).src1), p).Valid()
    ensures var i, tell := InstructionAt(p, a), Telling(bound, sem, seen);
      Split(Step(p, tell, a), Step(PlacedProgram(Joining(i.dst, i.src1), p), tell, c), i.src1, |a.history| + bound)
  {
    hide Cfg.Valid, NextBlock;
  }

  /** What an instruction may do while `v` is live and nothing keeps it and `d` apart. */
  predicate Spares(i: Instr, d: nat, v: nat) {
    i.dst != v && (i.dst == d ==> IsMove(i) && i.src1 == v)
  }

  lemma InstructionSplits(i: Instr, sem: Semantics, bound: nat, seen: History, e: Env, h: History, e': Env, h': History,
                          d: nat, v: nat, low: int)
    requires v != 0 && d != 0 && Spares(i, d, v) && Read(e, v) < low <= Read(e', v) && low <= |h'| + bound
    ensures var tell := Telling(bound, sem, seen);
      Read(Execute(tell, i, e, h).0, v) < low <= Read(Execute(tell, Placed(Joining(d, v), i), e', h').0, v)
  {
    hide Value, Write, Read, Telling;
    var tell, j := Telling(bound, sem, seen), Placed(Joining(d, v), i);
    var x := Value(tell, h', j, Read(e', j.src1), Read(e', j.src2));
    WriteSplits(Value(tell, h, i, Read(e, i.src1), Read(e, i.src2)), e, i.dst, v);
    if j.dst == v {
      MoveKeepsLow(sem, bound, seen, h', j, e', v, low);
      WriteThere(e', v, x);
    } else {
      WriteSplits(x, e', j.dst, v);
    }
  }

  lemma StepSplits(p: Program, sem: Semantics, bound: nat, seen: History, a: State, c: State, d: nat, v: nat, low: int)
    requires p.Valid() && PlacedProgram(Joining(d, v), p).Valid() && InStep(a, c) && v != 0 && d != 0
    requires Split(a, c, v, low) && low <= |c.history| + bound
    requires AtInstruction(p, a) ==> Spares(InstructionAt(p, a), d, v)
    ensures var tell := Telling(bound, sem, seen);
      Split(Step(p, tell, a), Step(PlacedProgram(Joining(d, v), p), tell, c), v, low)
  {
    hide Cfg.Valid, NextBlock, Execute, Spares, Telling;
    if AtInstruction(p, a) {
      InstructionSplits(InstructionAt(p, a), sem, bound, seen, a.env, a.history, c.env, c.history, d, v, low);
    }
  }

  lemma WriteSplits(x: int, e: Env, d: nat, v: nat)
    requires d != v
    ensures Read(Write(e, d, x), v) == Read(e, v)
  {
  }

  lemma WriteThere(e: Env, v: nat, x: int)
    requires v != 0
    ensures Read(Write(e, v, x), v) == x
  {
  }

  lemma MoveKeepsLow(sem: Semantics, bound: nat, seen: History, h: History, j: Instr, env: Env, v: nat, low: int)
    requires IsMove(j) && j.src1 == v != 0 && low <= Read(env, v) && low <= |h| + bound
    ensures low <= Value(Telling(bound, sem, seen), h, j, Read(env, j.src1), Read(env, j.src2))
  {
  }

  lemma SparesSource(p: Program, c: Context, out: seq<set<nat>>, b: nat, k: nat, d: nat, v: nat)
    requires Fits(p, c, out) && b < |p.code| && k < |p.code[b]| && !KeptApart(p, c, out, d, v)
    requires c.ClassOf(d) == c.ClassOf(v) && d != v && d != 0 && v != 0
    requires v in LiveAt(p, out, b, k + 1) && p.code[b][k].dst != v
    ensures Spares(p.code[b][k], d, v)
  {
    hide LiveAt, Subtracts, Selects, DemandsAny, Calls, Needs, Previous;
    assert !KeepsAt(p, c, out, b, k, d, v);
  }

  /** The two runs that tell. */
  function Told(p: Program, sem: Semantics, seen: History, t: nat): State
    requires p.Valid()
  {
    Run(p, Telling(Bound(p.code), sem, seen), map[], t)
  }

  function ToldPlaced(p: Program, d: nat, v: nat, sem: Semantics, seen: History, t: nat): State
    requires p.Valid() && PlacedProgram(Joining(d, v), p).Valid()
  {
    Run(PlacedProgram(Joining(d, v), p), Telling(Bound(p.code), sem, seen), map[], t)
  }

  /** `d` and `v` are of one class and nothing keeps them apart. */
  ghost predicate Together(p: Program, c: Context, out: seq<set<nat>>, d: nat, v: nat) {
    && p.Valid() && Fits(p, c, out) && Covers(p, out) && PlacedProgram(Joining(d, v), p).Valid()
    && d != 0 && v != 0 && d != v && c.ClassOf(d) == c.ClassOf(v) && !KeptApart(p, c, out, d, v)
  }

  lemma TogetherSpares(p: Program, c: Context, out: seq<set<nat>>, d: nat, v: nat, sem: Semantics, seen: History,
                       t: nat, n: nat)
    requires Together(p, c, out, d, v) && t < n && ReadAt(p, Telling(Bound(p.code), sem, seen), map[], t, n, v)
    ensures var a := Told(p, sem, seen, t); AtInstruction(p, a) ==> Spares(InstructionAt(p, a), d, v)
  {
    hide Cfg.Valid, Telling, Bound, KeptApart, Covers, Spares, Fits, ReadAt, PlacedProgram, Execute;
    var tell := Telling(Bound(p.code), sem, seen);
    UnwrittenAt(p, tell, map[], t, n, v);
    ReadIsLive(p, out, tell, map[], t + 1, n, v);
    var a := Told(p, sem, seen, t);
    if AtInstruction(p, a) {
      SparesSource(p, c, out, a.block, a.index, d, v);
    }
  }

  /** Once the values differ they do until `v` is read. */
  lemma {:induction false} StaysSplit(p: Program, c: Context, out: seq<set<nat>>, d: nat, v: nat, sem: Semantics,
                                      seen: History, low: int, t: nat, n: nat)
    requires Together(p, c, out, d, v) && t <= n && ReadAt(p, Telling(Bound(p.code), sem, seen), map[], t, n, v)
    requires Split(Told(p, sem, seen, t), ToldPlaced(p, d, v, sem, seen, t), v, low)
    requires low <= |Told(p, sem, seen, t).history| + Bound(p.code)
    ensures Split(Told(p, sem, seen, n), ToldPlaced(p, d, v, sem, seen, n), v, low)
    decreases n - t
  {
    hide Cfg.Valid, Telling, Bound, KeptApart, Covers, Spares, Fits, ReadAt, PlacedProgram, Step, Split;
    if t < n {
      var tell := Telling(Bound(p.code), sem, seen);
      PlacedInStep(p, Joining(d, v), sem, Bound(p.code), seen, t);
      TogetherSpares(p, c, out, d, v, sem, seen, t, n);
      var a, e := Told(p, sem, seen, t), ToldPlaced(p, d, v, sem, seen, t);
      StepSplits(p, sem, Bound(p.code), seen, a, e, d, v, low);
      StepGrows(p, tell, a);
      UnwrittenAt(p, tell, map[], t, n, v);
      StaysSplit(p, c, out, d, v, sem, seen, low, t + 1, n);
    }
  }

  /** The instruction that reads `v` logs different operands. */
  lemma ReadShows(p: Program, d: nat, v: nat, sem: Semantics, a: State, c: State, low: int)
    requires p.Valid() && PlacedProgram(Joining(d, v), p).Valid() && InStep(a, c) && AtInstruction(p, a) && v != 0
    requires Split(a, c, v, low)
    requires var i := InstructionAt(p, a); !IsSilent(i) && (i.src1 == v || i.src2 == v)
    ensures Step(p, sem, a).history != Step(PlacedProgram(Joining(d, v), p), sem, c).history
  {
    hide Cfg.Valid, Value, Write, NextBlock;
    var i := InstructionAt(p, a);
    var h, g := Step(p, sem, a).history, Step(PlacedProgram(Joining(d, v), p), sem, c).history;
    assert |h| == |a.history| + 1 && |g| == |c.history| + 1;
    assert h[|a.history|].a == Read(a.env, i.src1) && h[|a.history|].b == Read(a.env, i.src2);
    assert i.src1 == v ==> g[|c.history|].a == Read(c.env, v);
    assert i.src2 == v ==> g[|c.history|].b == Read(c.env, v);
  }

  /** Where a run goes says when a vreg is read. */
  lemma ReadAtSame(p: Program, sem: Semantics, env: Env, t: nat, n: nat, v: nat)
    requires p.Valid() && t <= n && ReadAt(p, sem, env, t, n, v)
    ensures ReadAt(p, Telling(Bound(p.code), sem, Run(p, sem, env, n).history), map[], t, n, v)
  {
    hide Cfg.Valid, Run, Telling, Bound;
    forall u: nat | u <= n
      ensures InStep(Run(p, sem, env, u), Run(p, Telling(Bound(p.code), sem, Run(p, sem, env, n).history), map[], u))
    {
      TellingInStep(p, sem, Bound(p.code), env, n, u);
    }
  }

  /** If a run comes to a conversion that loses its source, and then, before the source is written again, to an
      instruction that is logged and reads it, then there are a placement that respects the graph and the classes,
      operations, and branches, for which the code on locations has a different history. */
  lemma LossShows(p: Program, c: Context, out: seq<set<nat>>, b: nat, k: nat, sem: Semantics, env: Env, t: nat, n: nat)
    requires p.Valid() && Fits(p, c, out) && Covers(p, out) && b < |p.code| && k < |p.code[b]|
    requires LosesSource(p, c, out, b, k)
    requires var s := Run(p, sem, env, t); s.block == b && s.index == k
    requires t < n && ReadAt(p, sem, env, t + 1, n, p.code[b][k].src1)
    ensures var at := Joining(p.code[b][k].dst, p.code[b][k].src1);
      var q, tell := PlacedProgram(at, p), Telling(Bound(p.code), sem, Run(p, sem, env, n).history);
      && Proper(at) && Respects(at, AllEdges(p, c, out)) && KeepsClasses(at, c) && q.Valid() && Rewritten(p, q, at)
      && Run(p, tell, map[], n + 1).history != Run(q, tell, map[], n + 1).history
  {
    hide Cfg.Valid, Telling, Bound, ReadAt, Rewritten, Run, Together, PlacedProgram, KeepsClasses, Respects, AllEdges;
    LosesTogether(p, c, out, b, k);
    TellingInStep(p, sem, Bound(p.code), env, n, t);
    ReadAtSame(p, sem, env, t + 1, n, p.code[b][k].src1);
    ToldDiffer(p, c, out, sem, Run(p, sem, env, n).history, b, k, t, n);
  }

  lemma LosesTogether(p: Program, c: Context, out: seq<set<nat>>, b: nat, k: nat)
    requires p.Valid() && Fits(p, c, out) && Covers(p, out) && b < |p.code| && k < |p.code[b]|
    requires LosesSource(p, c, out, b, k)
    ensures var i := p.code[b][k]; var at := Joining(i.dst, i.src1);
      && Converts(i) && Together(p, c, out, i.dst, i.src1) && Rewritten(p, PlacedProgram(at, p), at)
      && Proper(at) && Respects(at, AllEdges(p, c, out)) && KeepsClasses(at, c)
  {
    hide Cfg.Valid, Converts, KeptApart, LiveAt, Fits, Covers, Respects, KeepsClasses, AllEdges, PlacedProgram;
    hide Rewritten;
    var i := p.code[b][k];
    JoiningAllowed(p, c, out, i.dst, i.src1);
    PlacedIsRewritten(Joining(i.dst, i.src1), p);
  }

  lemma ToldDiffer(p: Program, c: Context, out: seq<set<nat>>, sem: Semantics, seen: History, b: nat, k: nat, t: nat,
                   n: nat)
    requires b < |p.code| && k < |p.code[b]| && Together(p, c, out, p.code[b][k].dst, p.code[b][k].src1)
    requires Converts(p.code[b][k]) && t < n
    requires var a := Told(p, sem, seen, t); a.block == b && a.index == k
    requires ReadAt(p, Telling(Bound(p.code), sem, seen), map[], t + 1, n, p.code[b][k].src1)
    ensures Told(p, sem, seen, n + 1).history !=
            ToldPlaced(p, p.code[b][k].dst, p.code[b][k].src1, sem, seen, n + 1).history
  {
    hide Cfg.Valid, Telling, Bound, KeptApart, Covers, Fits, ReadAt, PlacedProgram, Split, Told, ToldPlaced, Converts;
    var d, v, low := p.code[b][k].dst, p.code[b][k].src1, |Told(p, sem, seen, t).history| + Bound(p.code);
    ConversionTold(p, sem, seen, b, k, t);
    StaysSplit(p, c, out, d, v, sem, seen, low, t + 1, n);
    ReadAtEnd(p, Telling(Bound(p.code), sem, seen), map[], t + 1, n, v);
    ReadTold(p, d, v, sem, seen, n, low);
  }

  lemma ReadAtEnd(p: Program, sem: Semantics, env: Env, t: nat, n: nat, v: nat)
    requires p.Valid() && t <= n && ReadAt(p, sem, env, t, n, v)
    ensures ReadAt(p, sem, env, n, n, v)
  {
    hide Cfg.Valid, Run;
  }

  lemma JoiningAllowed(p: Program, c: Context, out: seq<set<nat>>, d: nat, v: nat)
    requires Fits(p, c, out) && d != 0 && v != 0 && c.ClassOf(d) == c.ClassOf(v) && !KeptApart(p, c, out, d, v)
    ensures var at := Joining(d, v); Proper(at) && Respects(at, AllEdges(p, c, out)) && KeepsClasses(at, c)
  {
    hide AllEdges, KeptApart;
    EdgesMean(p, c, out, d, v);
  }

  lemma ConversionTold(p: Program, sem: Semantics, seen: History, b: nat, k: nat, t: nat)
    requires p.Valid() && b < |p.code| && k < |p.code[b]|
    requires var i := p.code[b][k]; Converts(i) && i.dst != 0 && i.src1 != 0 && i.dst != i.src1
    requires PlacedProgram(Joining(p.code[b][k].dst, p.code[b][k].src1), p).Valid()
    requires var a := Told(p, sem, seen, t); a.block == b && a.index == k
    ensures var i, low := p.code[b][k], |Told(p, sem, seen, t).history| + Bound(p.code);
      && Split(Told(p, sem, seen, t + 1), ToldPlaced(p, i.dst, i.src1, sem, seen, t + 1), i.src1, low)
      && low <= |Told(p, sem, seen, t + 1).history| + Bound(p.code)
  {
    hide Cfg.Valid, Telling, Bound, PlacedProgram, Step, Split, Small, Converts;
    var i, tell := p.code[b][k], Telling(Bound(p.code), sem, seen);
    PlacedInStep(p, Joining(i.dst, i.src1), sem, Bound(p.code), seen, t);
    RunSmall(p, sem, seen, t);
    var a, e := Told(p, sem, seen, t), ToldPlaced(p, i.dst, i.src1, sem, seen, t);
    ConversionSplits(p, sem, Bound(p.code), seen, a, e);
    StepGrows(p, tell, a);
  }

  lemma ReadTold(p: Program, d: nat, v: nat, sem: Semantics, seen: History, n: nat, low: int)
    requires p.Valid() && PlacedProgram(Joining(d, v), p).Valid() && v != 0
    requires ReadAt(p, Telling(Bound(p.code), sem, seen), map[], n, n, v)
    requires Split(Told(p, sem, seen, n), ToldPlaced(p, d, v, sem, seen, n), v, low)
    ensures Told(p, sem, seen, n + 1).history != ToldPlaced(p, d, v, sem, seen, n + 1).history
  {
    hide Cfg.Valid, Telling, Bound, PlacedProgram, Step, Split;
    PlacedInStep(p, Joining(d, v), sem, Bound(p.code), seen, n);
    ReadShows(p, d, v, Telling(Bound(p.code), sem, seen), Told(p, sem, seen, n),
              ToldPlaced(p, d, v, sem, seen, n), low);
  }
}
