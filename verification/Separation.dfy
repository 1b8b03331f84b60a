/** When vregs may share a location without changing what a program does. */
module Separation {
  import opened Cfgs
  import opened Dominance
  import opened Ir
  import opened LocalUse
  import opened Liveness
  import opened Widths

  // Liveness inside blocks

  function Operands(i: Instr): set<nat> {
    (if i.src1 != 0 then {i.src1} else {}) + (if i.src2 != 0 then {i.src2} else {})
  }

  /** `livenow` before an instruction, from what it is after it. */
  function Backwards(i: Instr, after: set<nat>): set<nat> {
    (if i.dst != 0 then after - {i.dst} else after) + Operands(i)
  }

  /** The vregs live before instruction `k` of block `b`, given those live at the ends of the blocks. */
  function LiveAt(p: Program, out: seq<set<nat>>, b: nat, k: nat): set<nat>
    requires |out| == |p.code| && b < |p.code| && k <= |p.code[b]|
    decreases |p.code[b]| - k
  {
    if k == |p.code[b]| then out[b] else Backwards(p.code[b][k], LiveAt(p, out, b, k + 1))
  }

  /** `out` may hold too much but never too little: what is live at the start of a block is in the set of each
      predecessor. */
  ghost predicate Covers(p: Program, out: seq<set<nat>>) {
    && |out| == |p.code|
    && forall b: nat, s: nat | b < |p.code| && s < |p.code| && p.g.Edge(b, s) :: LiveAt(p, out, s, 0) <= out[b]
  }

  /** Read backwards: used before being defined from `k` on, or in the set at the end and not defined. */
  ghost predicate UsedFrom(p: Program, b: nat, k: nat, v: nat)
    requires b < |p.code| && k <= |p.code[b]|
  {
    exists i :: k <= i < |p.code[b]| && Uses(p.code[b][i], v) && forall j | k <= j < i :: p.code[b][j].dst != v
  }

  ghost predicate KeptFrom(p: Program, b: nat, k: nat, v: nat)
    requires b < |p.code| && k <= |p.code[b]|
  {
    forall j | k <= j < |p.code[b]| :: p.code[b][j].dst != v
  }

  lemma {:induction false} LiveAtMeans(p: Program, out: seq<set<nat>>, b: nat, k: nat, v: nat)
    requires |out| == |p.code| && b < |p.code| && k <= |p.code[b]| && v != 0
    ensures v in LiveAt(p, out, b, k) <==> UsedFrom(p, b, k, v) || (v in out[b] && KeptFrom(p, b, k, v))
    decreases |p.code[b]| - k
  {
    if k < |p.code[b]| {
      LiveAtMeans(p, out, b, k + 1, v);
      UsedUnfold(p, b, k, v);
    }
  }

  lemma UsedUnfold(p: Program, b: nat, k: nat, v: nat)
    requires b < |p.code| && k < |p.code[b]|
    ensures UsedFrom(p, b, k, v) <==> Uses(p.code[b][k], v) || (UsedFrom(p, b, k + 1, v) && p.code[b][k].dst != v)
    ensures KeptFrom(p, b, k, v) <==> KeptFrom(p, b, k + 1, v) && p.code[b][k].dst != v
  {
    if UsedFrom(p, b, k + 1, v) && p.code[b][k].dst != v {
      var i :| k + 1 <= i < |p.code[b]| && Uses(p.code[b][i], v) && forall j | k + 1 <= j < i :: p.code[b][j].dst != v;
      assert k <= i < |p.code[b]|;
    }
  }

  lemma {:induction false} LiveAtPositive(p: Program, out: seq<set<nat>>, b: nat, k: nat)
    requires |out| == |p.code| && b < |p.code| && k <= |p.code[b]| && 0 !in out[b]
    ensures 0 !in LiveAt(p, out, b, k)
    decreases |p.code[b]| - k
  {
    if k < |p.code[b]| { LiveAtPositive(p, out, b, k + 1); }
  }

  lemma ExposedIsUsed(p: Program, b: nat, v: nat)
    requires b < |p.code| && v != 0
    ensures Exposed(p, b, v) <==> UsedFrom(p, b, 0, v)
    ensures Writes(p, b, v) <==> !KeptFrom(p, b, 0, v)
  {
  }

  lemma NoZeroLive(p: Program, f: Facts, b: nat)
    requires FactsOf(p, f)
    ensures !LiveOut(f, b, 0)
  {
    forall c: nat | c < |p.code| ensures 0 !in f.uevar[c] {
      assert BlockFacts(p, c, f.uevar[c], f.varkill[c]);
    }
  }

  /** The sets make_liveout computes cover the program. */
  lemma LiveoutCovers(p: Program, f: Facts, out: seq<set<nat>>)
    requires FactsOf(p, f) && |out| == |p.code|
    requires forall b: nat, v: nat | b < |out| :: v in out[b] <==> LiveOut(f, b, v)
    ensures Covers(p, out) && forall b | 0 <= b < |out| :: 0 !in out[b]
  {
    hide Cfg.Valid, LiveOut, LiveAt, Exposed, DefinedBefore, BlockFacts;
    forall b: nat | b < |out| ensures 0 !in out[b] { NoZeroLive(p, f, b); }
    forall b: nat, s: nat, v | b < |p.code| && s < |p.code| && p.g.Edge(b, s) && v in LiveAt(p, out, s, 0)
      ensures v in out[b]
    {
      LiveAtPositive(p, out, s, 0);
      StartIsThrough(p, f, out, s, v);
      LiveBySuccessor(f, out, b, s, v);
    }
  }

  lemma StartIsThrough(p: Program, f: Facts, out: seq<set<nat>>, s: nat, v: nat)
    requires FactsOf(p, f) && |out| == |p.code| && s < |p.code| && v != 0
    ensures v in LiveAt(p, out, s, 0) <==> Through(f, out, s, v)
  {
    hide Cfg.Valid, Exposed, DefinedBefore, LiveAt, UsedFrom, KeptFrom;
    LiveAtMeans(p, out, s, 0, v);
    ExposedIsUsed(p, s, v);
    assert BlockFacts(p, s, f.uevar[s], f.varkill[s]);
  }

  // Locations

  /** Where each vreg goes; 0 stands for an absent operand on both sides. */
  type Placement = nat -> nat

  ghost predicate Proper(at: Placement) {
    at(0) == 0 && forall v: nat | v != 0 :: at(v) != 0
  }

  /** Only a copy or an extending move may have its result where one of the vregs live afterwards is, and then only
      with its source. */
  ghost predicate Apart(at: Placement, i: Instr, after: set<nat>) {
    i.dst != 0 ==>
      forall v | v in after && v != i.dst && at(v) == at(i.dst) :: (IsCopy(i) || i.op == Extend) && v == i.src1
  }

  /** An extending move has its result where its source is, and the source is used later. */
  ghost predicate Overwrites(at: Placement, i: Instr, after: set<nat>) {
    i.op == Extend && i.dst != 0 && i.src1 in after && i.src1 != i.dst && at(i.dst) == at(i.src1)
  }

  ghost predicate Separates(p: Program, out: seq<set<nat>>, at: Placement)
    requires |out| == |p.code|
  {
    forall b: nat, k: nat | b < |p.code| && k < |p.code[b]| :: Apart(at, p.code[b][k], LiveAt(p, out, b, k + 1))
  }

  function Placed(at: Placement, i: Instr): Instr {
    i.(dst := at(i.dst), src1 := at(i.src1), src2 := at(i.src2))
  }

  /** The new instruction is the old one on locations, or nothing where a copy has become a copy to itself. */
  ghost predicate Becomes(at: Placement, i: Instr, j: Instr) {
    j == Placed(at, i) || (IsCopy(i) && at(i.dst) == at(i.src1) && j == Instr(Nop, 0, 0, 0, j.imm))
  }

  ghost predicate Rewritten(p: Program, q: Program, at: Placement) {
    && q.g == p.g && |q.code| == |p.code|
    && forall b: nat | b < |p.code| :: |q.code[b]| == |p.code[b]| &&
         forall k: nat | k < |p.code[b]| :: Becomes(at, p.code[b][k], q.code[b][k])
  }

  // Machines that destroy registers

  /** What instructions destroy besides writing their result: `early` before the operands are read and again after
      the result is written, `late` in between. `setup` are registers that are overwritten before the first operand
      is read; as far as they matter afterwards they are in `late`. `junk` is what is left behind. */
  datatype Machine = Machine(setup: (nat, nat) -> set<nat>, early: (nat, nat) -> set<nat>, late: (nat, nat) -> set<nat>,
                             junk: (History, nat) -> int)

  function Destroy(env: Env, regs: set<nat>, h: History, junk: (History, nat) -> int): Env {
    map r | r in env.Keys + regs :: if r in regs then junk(h, r) else env[r]
  }

  lemma DestroyKeeps(env: Env, regs: set<nat>, h: History, junk: (History, nat) -> int, r: nat)
    requires r !in regs
    ensures Read(Destroy(env, regs, h, junk), r) == Read(env, r)
  {
  }

  function ExecuteOn(sem: Semantics, m: Machine, b: nat, k: nat, i: Instr, env: Env, h: History): (Env, History) {
    var e0 := Destroy(env, m.early(b, k), h, m.junk);
    var x, y := Read(Destroy(e0, m.setup(b, k), h, m.junk), i.src1), Read(e0, i.src2);
    var e1 := Destroy(e0, m.late(b, k), h, m.junk);
    var e2 := Write(e1, i.dst, Value(sem, h, i, x, y));
    (Destroy(e2, m.early(b, k), h, m.junk), Log(h, i, x, y))
  }

  function StepOn(q: Program, sem: Semantics, m: Machine, s: State): State
    requires q.Valid()
  {
    if s.block < |q.code| && s.index < |q.code[s.block]| then
      var (env, h) := ExecuteOn(sem, m, s.block, s.index, q.code[s.block][s.index], s.env, s.history);
      State(s.block, s.index + 1, env, h)
    else Step(q, sem, s)
  }

  function RunOn(q: Program, sem: Semantics, m: Machine, env: Env, n: nat): State
    requires q.Valid()
  {
    if n == 0 then State(0, 0, env, []) else StepOn(q, sem, m, RunOn(q, sem, m, env, n - 1))
  }

  /** Nothing that matters is in a register the instruction destroys. */
  ghost predicate Safe(at: Placement, i: Instr, after: set<nat>, setup: set<nat>, early: set<nat>, late: set<nat>) {
    && 0 !in setup && 0 !in early && 0 !in late && at(i.src1) !in setup
    && (forall v | v in after + Operands(i) + {i.dst} :: at(v) !in early)
    && (forall v | v in after && v != i.dst :: at(v) !in late)
    && (IsCopy(i) ==> at(i.dst) !in late)
  }

  ghost predicate SafeOn(p: Program, out: seq<set<nat>>, at: Placement, m: Machine)
    requires |out| == |p.code|
  {
    forall b: nat, k: nat | b < |p.code| && k < |p.code[b]| ::
      Safe(at, p.code[b][k], LiveAt(p, out, b, k + 1), m.setup(b, k), m.early(b, k), m.late(b, k))
  }

  // Simulation

  /** Every live vreg has what counts of its value in its location. */
  ghost predicate HoldsIn(w: Width, at: Placement, live: set<nat>, e: Env, e': Env) {
    forall v | v in live :: w.view(v, Read(e', at(v))) == w.view(v, Read(e, v))
  }

  /** Every live vreg has its value in its location. */
  ghost predicate Holds(at: Placement, live: set<nat>, e: Env, e': Env) {
    forall v | v in live :: Read(e', at(v)) == Read(e, v)
  }

  /** The runs are at the same place, instructions have read the same, and live vregs are in their locations. */
  ghost predicate Matches(w: Width, p: Program, out: seq<set<nat>>, at: Placement, a: State, c: State)
    requires |out| == |p.code|
  {
    && a.block == c.block && a.index == c.index && Seen(w, a.history) == Seen(w, c.history)
    && a.block < |p.code| && a.index <= |p.code[a.block]|
    && HoldsIn(w, at, LiveAt(p, out, a.block, a.index), a.env, c.env)
  }

  lemma DestroyHolds(w: Width, at: Placement, live: set<nat>, e: Env, e': Env, regs: set<nat>, h: History,
                     junk: (History, nat) -> int)
    requires HoldsIn(w, at, live, e, e') && forall v | v in live :: at(v) !in regs
    ensures HoldsIn(w, at, live, e, Destroy(e', regs, h, junk))
  {
    hide Destroy;
    forall v | v in live ensures w.view(v, Read(Destroy(e', regs, h, junk), at(v))) == w.view(v, Read(e, v)) {
      DestroyKeeps(e', regs, h, junk, at(v));
    }
  }

  /** The same counts of both results, and, if the result is where the source was, of the source. */
  ghost predicate SameResult(w: Width, i: Instr, shared: bool, a: int, value: int, value': int) {
    && (i.dst != 0 ==> w.view(i.dst, value') == w.view(i.dst, value))
    && (shared ==> w.view(i.src1, value') == w.view(i.src1, a))
  }

  lemma WriteHolds(w: Width, at: Placement, i: Instr, after: set<nat>, e: Env, e': Env, value: int, value': int)
    requires Proper(at) && Apart(at, i, after) && HoldsIn(w, at, after - {i.dst}, e, e') && 0 !in after
    requires SameResult(w, i, IsCopy(i) || Overwrites(at, i, after), Read(e, i.src1), value, value')
    ensures HoldsIn(w, at, after, Write(e, i.dst, value), Write(e', at(i.dst), value'))
  {
  }

  /** A copy whose source is in the place of its result needs no instruction. */
  lemma SelfCopyHolds(w: Width, at: Placement, i: Instr, after: set<nat>, e: Env, e': Env)
    requires Proper(at) && IsCopy(i) && at(i.dst) == at(i.src1) && HoldsIn(w, at, Backwards(i, after), e, e')
      && 0 !in after
    requires WidthFits(w, i)
    ensures HoldsIn(w, at, after, Write(e, i.dst, Read(e, i.src1)), e')
  {
  }

  /** One instruction keeps what counts of the live vregs in their locations, and reads the same. */
  lemma InstructionHolds(w: Width, at: Placement, sem: Semantics, m: Machine, b: nat, k: nat, i: Instr, j: Instr,
                         after: set<nat>, e: Env, e': Env, h: History, h': History)
    requires Proper(at) && Becomes(at, i, j) && Apart(at, i, after)
    requires Safe(at, i, after, m.setup(b, k), m.early(b, k), m.late(b, k))
    requires ReadsAtWidth(sem, w) && WidthFits(w, i) && (Overwrites(at, i, after) ==> KeepsLow(sem, w, i))
    requires HoldsIn(w, at, Backwards(i, after), e, e') && 0 !in after && Seen(w, h) == Seen(w, h')
    ensures var (f, g) := Execute(sem, i, e, h); var (f', g') := ExecuteOn(sem, m, b, k, j, e', h');
      HoldsIn(w, at, after, f, f') && Seen(w, g) == Seen(w, g')
  {
    hide Destroy, HoldsIn, Apart, ReadsAtWidth, Seen, Log, WidthFits;
    var setup, early, late := m.setup(b, k), m.early(b, k), m.late(b, k);
    if j == Placed(at, i) {
      var e0 := Destroy(e', early, h', m.junk);
      var x, y := Read(e, i.src1), Read(e, i.src2);
      var x', y' := Read(Destroy(e0, setup, h', m.junk), at(i.src1)), Read(e0, at(i.src2));
      EarlyHolds(w, at, i, after, e, e', setup, early, h', m.junk);
      var e1 := Destroy(e0, late, h', m.junk);
      var value, value' := Value(sem, h, i, x, y), Value(sem, h', i, x', y');
      ResultsAgree(w, at, sem, i, after, h, x, y, h', x', y');
      SameLog(w, i, h, x, y, h', x', y');
      assert value' == Value(sem, h', j, x', y') && Log(h', j, x', y') == Log(h', i, x', y') by {
        PlacedDoesSame(at, sem, i, h', x', y');
      }
      DestroyHolds(w, at, after - {i.dst}, e, e0, late, h', m.junk);
      WriteHolds(w, at, i, after, e, e1, value, value');
      DestroyHolds(w, at, after, Write(e, i.dst, value), Write(e1, at(i.dst), value'), early, h', m.junk);
    } else {
      DropHolds(w, at, i, after, e, e', setup, early, late, h', m.junk);
      DroppedLogs(sem, i, j, h, h');
    }
  }

  lemma PlacedDoesSame(at: Placement, sem: Semantics, i: Instr, h: History, x: int, y: int)
    requires Proper(at)
    ensures Value(sem, h, Placed(at, i), x, y) == Value(sem, h, i, x, y)
      && Log(h, Placed(at, i), x, y) == Log(h, i, x, y)
  {
  }

  lemma DroppedLogs(sem: Semantics, i: Instr, j: Instr, h: History, h': History)
    requires IsCopy(i) && j == Instr(Nop, 0, 0, 0, j.imm)
    ensures forall a, b :: Log(h, i, a, b) == h && Log(h', j, a, b) == h'
  {
  }

  /** The results agree in what counts; where an extending move overwrites its source, the result has the source in
      it. */
  lemma ResultsAgree(w: Width, at: Placement, sem: Semantics, i: Instr, after: set<nat>, h: History, x: int, y: int,
                     h': History, x': int, y': int)
    requires ReadsAtWidth(sem, w) && WidthFits(w, i) && Seen(w, h) == Seen(w, h') && SameOperands(w, i, x, y, x', y')
    requires (Overwrites(at, i, after) ==> KeepsLow(sem, w, i)) && 0 !in after
    ensures SameResult(w, i, IsCopy(i) || Overwrites(at, i, after), x, Value(sem, h, i, x, y), Value(sem, h', i,
        x', y'))
  {
    hide Seen, ReadsAtWidth;
    SameValue(sem, w, i, h, x, y, h', x', y');
  }

  /** The operands and whatever else stays live survive the first destruction. */
  lemma EarlyHolds(w: Width, at: Placement, i: Instr, after: set<nat>, e: Env, e': Env, setup: set<nat>,
                   early: set<nat>, h: History, junk: (History, nat) -> int)
    requires Proper(at) && HoldsIn(w, at, Backwards(i, after), e, e') && 0 !in after && 0 !in early && 0 !in setup
    requires forall v | v in after + Operands(i) + {i.dst} :: at(v) !in early
    requires at(i.src1) !in setup
    ensures var e0 := Destroy(e', early, h, junk);
      && HoldsIn(w, at, Backwards(i, after), e, e0) && HoldsIn(w, at, after - {i.dst}, e, e0)
      && SameOperands(w, i, Read(e, i.src1), Read(e, i.src2), Read(Destroy(e0, setup, h, junk), at(i.src1)),
          Read(e0, at(i.src2)))
  {
    hide Destroy;
    DestroyHolds(w, at, Backwards(i, after), e, e', early, h, junk);
    DestroyKeeps(Destroy(e', early, h, junk), setup, h, junk, at(i.src1));
  }

  lemma DropHolds(w: Width, at: Placement, i: Instr, after: set<nat>, e: Env, e': Env, setup: set<nat>, early: set<nat>,
                  late: set<nat>, h: History, junk: (History, nat) -> int)
    requires Proper(at) && IsCopy(i) && at(i.dst) == at(i.src1) && HoldsIn(w, at, Backwards(i, after), e, e')
      && 0 !in after
    requires Safe(at, i, after, setup, early, late) && WidthFits(w, i)
    ensures HoldsIn(w, at, after, Write(e, i.dst, Read(e, i.src1)),
                    Destroy(Destroy(Destroy(e', early, h, junk), late, h, junk), early, h, junk))
  {
    hide Destroy, WidthFits;
    var f := Write(e, i.dst, Read(e, i.src1));
    SelfCopyHolds(w, at, i, after, e, e');
    DestroyHolds(w, at, after, f, e', early, h, junk);
    DestroyHolds(w, at, after, f, Destroy(e', early, h, junk), late, h, junk);
    DestroyHolds(w, at, after, f, Destroy(Destroy(e', early, h, junk), late, h, junk), early, h, junk);
  }

  /** `q` is `p` with its vregs in locations that keep live vregs apart and out of destroyed registers. */
  ghost predicate Plan(p: Program, q: Program, out: seq<set<nat>>, at: Placement, m: Machine) {
    && p.Valid() && q.Valid() && Covers(p, out) && (forall b | 0 <= b < |out| :: 0 !in out[b])
    && Proper(at) && Separates(p, out, at) && Rewritten(p, q, at) && SafeOn(p, out, at, m)
  }

  /** The instructions read at these widths, and an extending move that overwrites its source keeps what counts of
      it. */
  ghost predicate Suits(sem: Semantics, w: Width, p: Program, out: seq<set<nat>>, at: Placement)
    requires |out| == |p.code|
  {
    && ReadsAtWidth(sem, w) && AllFit(w, p)
    && forall b: nat, k: nat | b < |p.code| && k < |p.code[b]| &&
        Overwrites(at, p.code[b][k], LiveAt(p, out, b, k + 1)) ::
         KeepsLow(sem, w, p.code[b][k])
  }

  /** What a plan says of one instruction. */
  lemma PlanAt(w: Width, p: Program, q: Program, out: seq<set<nat>>, at: Placement, sem: Semantics, m: Machine, b: nat,
               k: nat)
    requires Plan(p, q, out, at, m) && Suits(sem, w, p, out, at) && b < |p.code| && k < |p.code[b]|
    ensures p.Valid() && q.Valid() && |out| == |p.code| && Proper(at) && ReadsAtWidth(sem, w)
    ensures |q.code| == |p.code| && |q.code[b]| == |p.code[b]| && Becomes(at, p.code[b][k], q.code[b][k])
    ensures var i, after := p.code[b][k], LiveAt(p, out, b, k + 1);
      && LiveAt(p, out, b, k) == Backwards(i, after) && 0 !in after && Apart(at, i, after)
      && Safe(at, i, after, m.setup(b, k), m.early(b, k), m.late(b, k))
      && WidthFits(w, i) && (Overwrites(at, i, after) ==> KeepsLow(sem, w, i))
  {
    hide Cfg.Valid, Apart, Safe, Becomes, ReadsAtWidth, KeepsLow, WidthFits, Overwrites, Proper;
    LiveAtPositive(p, out, b, k + 1);
  }

  /** A step inside a block. */
  lemma InsideMatches(w: Width, p: Program, q: Program, out: seq<set<nat>>, at: Placement, sem: Semantics, m: Machine,
                      a: State, c: State)
    requires Plan(p, q, out, at, m) && Suits(sem, w, p, out, at) && Matches(w, p, out, at, a, c)
    requires a.index < |p.code[a.block]|
    ensures Matches(w, p, out, at, Step(p, sem, a), StepOn(q, sem, m, c))
  {
    hide Plan, Suits, HoldsIn, Apart, Safe, Becomes, Execute, ExecuteOn, LiveAt, Backwards, Seen, ReadsAtWidth;
    hide KeepsLow, WidthFits, Overwrites, Proper, Cfg.Valid;
    var b, k := a.block, a.index;
    PlanAt(w, p, q, out, at, sem, m, b, k);
    InstructionHolds(w, at, sem, m, b, k, p.code[b][k], q.code[b][k], LiveAt(p, out, b, k + 1), a.env, c.env,
                     a.history, c.history);
  }

  /** A step from the end of a block to the next one. */
  lemma AcrossMatches(w: Width, p: Program, q: Program, out: seq<set<nat>>, at: Placement, sem: Semantics, m: Machine,
                      a: State, c: State)
    requires Plan(p, q, out, at, m) && Suits(sem, w, p, out, at) && Matches(w, p, out, at, a, c)
    requires a.index == |p.code[a.block]|
    ensures Matches(w, p, out, at, Step(p, sem, a), StepOn(q, sem, m, c))
  {
    hide Cfg.Valid, Separates, SafeOn, AllFit, HoldsIn, Becomes, NextBlock, Seen, ReadsAtWidth, Proper;
    var b := a.block;
    if p.g.succ[b] != [] {
      SameNext(w, p.g, sem, a.history, c.history, b);
      NextIsEdge(p, sem, a.history, b);
      var s := NextBlock(p.g, sem, a.history, b);
      HoldsFewer(w, at, out[b], LiveAt(p, out, s, 0), a.env, c.env);
    }
  }

  lemma StepMatches(w: Width, p: Program, q: Program, out: seq<set<nat>>, at: Placement, sem: Semantics, m: Machine,
                    a: State, c: State)
    requires Plan(p, q, out, at, m) && Suits(sem, w, p, out, at) && Matches(w, p, out, at, a, c)
    ensures Matches(w, p, out, at, Step(p, sem, a), StepOn(q, sem, m, c))
  {
    hide Suits, Step, StepOn, Seen, HoldsIn, Cfg.Valid, LiveAt;
    if a.index < |p.code[a.block]| {
      InsideMatches(w, p, q, out, at, sem, m, a, c);
    } else {
      AcrossMatches(w, p, q, out, at, sem, m, a, c);
    }
  }

  lemma SameNext(w: Width, g: Cfg, sem: Semantics, h: History, h': History, b: nat)
    requires ReadsAtWidth(sem, w) && Seen(w, h) == Seen(w, h') && b < |g.succ| && g.succ[b] != []
    ensures NextBlock(g, sem, h, b) == NextBlock(g, sem, h', b)
  {
    hide Seen;
    assert SameBranch(sem, w, b, h, h');
  }

  lemma HoldsFewer(w: Width, at: Placement, live: set<nat>, fewer: set<nat>, e: Env, e': Env)
    requires HoldsIn(w, at, live, e, e') && fewer <= live
    ensures HoldsIn(w, at, fewer, e, e')
  {
  }

  /** The two runs are at the same place after any number of steps, their instructions have read the same, and every
      live vreg has what counts of its value in its location. */
  lemma {:induction false} RunsMatch(w: Width, p: Program, q: Program, out: seq<set<nat>>, at: Placement,
                                     sem: Semantics, m: Machine, env: Env, env': Env, n: nat)
    requires Plan(p, q, out, at, m) && Suits(sem, w, p, out, at) && |p.code| > 0
    requires HoldsIn(w, at, LiveAt(p, out, 0, 0), env, env')
    ensures Matches(w, p, out, at, Run(p, sem, env, n), RunOn(q, sem, m, env', n))
  {
    hide Cfg.Valid, Covers, Separates, Rewritten, SafeOn, Step, StepOn, LiveAt, Suits, Seen;
    if n > 0 {
      RunsMatch(w, p, q, out, at, sem, m, env, env', n - 1);
      StepMatches(w, p, q, out, at, sem, m, Run(p, sem, env, n - 1), RunOn(q, sem, m, env', n - 1));
    } else {
      assert Seen(w, []) == Seen(w, []);
    }
  }

  /** No extending move overwrites its source. */
  ghost predicate Unshared(p: Program, out: seq<set<nat>>, at: Placement)
    requires |out| == |p.code|
  {
    forall b: nat, k: nat | b < |p.code| && k < |p.code[b]| :: !Overwrites(at, p.code[b][k], LiveAt(p, out, b, k + 1))
  }

  /** Then whatever instructions compute from whole registers, the histories are the same and live vregs have their
      values. */
  lemma RunsMatchWhole(p: Program, q: Program, out: seq<set<nat>>, at: Placement, sem: Semantics, m: Machine,
                       env: Env, env': Env, n: nat)
    requires Plan(p, q, out, at, m) && Unshared(p, out, at) && |p.code| > 0
      && Holds(at, LiveAt(p, out, 0, 0), env, env')
    ensures var a, c := Run(p, sem, env, n), RunOn(q, sem, m, env', n);
      && a.block == c.block < |p.code| && a.index == c.index <= |p.code[a.block]| && a.history == c.history
      && Holds(at, LiveAt(p, out, a.block, a.index), a.env, c.env)
  {
    hide Covers, Separates, Rewritten, SafeOn, LiveAt, ReadsAtWidth, Run, RunOn, AllFit, Cfg.Valid, Seen;
    WholeReads(sem);
    WholeFits(p);
    var w := Whole();
    RunsMatch(w, p, q, out, at, sem, m, env, env', n);
    SeenWhole(Run(p, sem, env, n).history);
    SeenWhole(RunOn(q, sem, m, env', n).history);
  }

  // A machine that destroys nothing

  function Gentle(): Machine {
    Machine((b, k) => {}, (b, k) => {}, (b, k) => {}, (h, r) => 0)
  }

  lemma DestroyNothing(env: Env, h: History, junk: (History, nat) -> int)
    ensures Destroy(env, {}, h, junk) == env
  {
  }

  lemma GentleStep(q: Program, sem: Semantics, s: State)
    requires q.Valid()
    ensures StepOn(q, sem, Gentle(), s) == Step(q, sem, s)
  {
    hide Destroy, Cfg.Valid, NextBlock, Value, Log;
    if s.block < |q.code| && s.index < |q.code[s.block]| {
      var i, m := q.code[s.block][s.index], Gentle();
      DestroyNothing(s.env, s.history, m.junk);
      var x := Value(sem, s.history, i, Read(s.env, i.src1), Read(s.env, i.src2));
      DestroyNothing(Write(s.env, i.dst, x), s.history, m.junk);
    }
  }

  lemma {:induction false} GentleRun(q: Program, sem: Semantics, env: Env, n: nat)
    requires q.Valid()
    ensures RunOn(q, sem, Gentle(), env, n) == Run(q, sem, env, n)
  {
    hide Cfg.Valid, StepOn, Step, Gentle;
    if n > 0 {
      GentleRun(q, sem, env, n - 1);
      GentleStep(q, sem, Run(q, sem, env, n - 1));
    }
  }
}
