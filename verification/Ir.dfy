/** The three-address code (wcc.h:391-404) and how it runs. */
module Ir {
  import opened Cfgs

  /** The operations the passes tell apart; `Other` stands for all the rest. */
  datatype Op =
    | Nop
    | Move            // IR_MOVE between operands of one type
    | Cast            // IR_MOVE between operands of different types, which may change the value
    | XMov            // X_MOV
    | Extend          // X_MOVZ and X_MOVS: moves that fill the bits above a narrow source
    | Convert         // X_MOVC: moves that change the value
    | Rsub            // IR_RSUB
    | XSub            // X_SUB
    | XAdd            // X_ADD
    | XMul            // X_MUL
    | Call            // IR_CALL
    | XCall           // X_CALL
    | Divide          // IR_DIV and IR_MOD
    | XIdiv           // X_IDIV
    | ShiftLeft       // IR_BSHL
    | ShiftRight      // IR_BSHR
    | XShr            // X_SHR
    | XLdEqCmp        // X_LD_EQ_CMP
    | Other(code: nat)

  /** Virtual registers are numbered from 1; 0 says that the operand is absent or not a register. `imm` stands for
      everything else in the instruction: constants, labels, memory operands. */
  datatype Instr = Instr(op: Op, dst: nat, src1: nat, src2: nat, imm: int)

  /** The code of each block, and the edges between blocks. */
  datatype Program = Program(code: seq<seq<Instr>>, g: Cfg) {
    ghost predicate Valid() {
      g.Valid() && |code| == |g.succ|
    }
  }

  /** What an instruction that is not a plain copy did, as seen from outside. */
  datatype Event = Event(op: Op, imm: int, a: int, b: int)

  type History = seq<Event>

  /** The meaning of operations and branches is left open. A result may depend on everything that happened before, so
      memory, calls and input are covered; the branch taken depends on the history, which holds the operands of
      the jump at the end of the block. */
  datatype Semantics = Semantics(eval: (History, Op, int, int, int) -> int, branch: (History, nat) -> nat)

  type Env = map<nat, int>

  datatype State = State(block: nat, index: nat, env: Env, history: History)

  function Read(env: Env, v: nat): int {
    if v == 0 || v !in env then 0 else env[v]
  }

  predicate IsCopy(i: Instr) {
    (i.op == Move || i.op == XMov) && i.src1 != 0
  }

  predicate IsSilent(i: Instr) {
    i.op == Nop || i.op == Move || i.op == XMov
  }

  /** The value written to `dst` when the operands hold `a` and `b`. */
  function Value(sem: Semantics, h: History, i: Instr, a: int, b: int): int {
    if IsCopy(i) then a
    else if i.op == Move || i.op == XMov then i.imm
    else sem.eval(h, i.op, i.imm, a, b)
  }

  function Log(h: History, i: Instr, a: int, b: int): History {
    if IsSilent(i) then h else h + [Event(i.op, i.imm, a, b)]
  }

  function Write(env: Env, v: nat, x: int): Env {
    if v == 0 then env else env[v := x]
  }

  function Execute(sem: Semantics, i: Instr, env: Env, h: History): (Env, History) {
    var a, b := Read(env, i.src1), Read(env, i.src2);
    (Write(env, i.dst, Value(sem, h, i, a, b)), Log(h, i, a, b))
  }

  function NextBlock(g: Cfg, sem: Semantics, h: History, b: nat): nat
    requires b < |g.succ| && g.succ[b] != []
  {
    g.succ[b][sem.branch(h, b) % |g.succ[b]|]
  }

  /** One step: an instruction, or the jump at the end of a block. A block without successors is the end. */
  function Step(p: Program, sem: Semantics, s: State): State
    requires p.Valid()
  {
    if s.block >= |p.code| then s
    else if s.index < |p.code[s.block]| then
      var (env, h) := Execute(sem, p.code[s.block][s.index], s.env, s.history);
      State(s.block, s.index + 1, env, h)
    else if p.g.succ[s.block] == [] then s
    else State(NextBlock(p.g, sem, s.history, s.block), 0, s.env, s.history)
  }

  function Run(p: Program, sem: Semantics, env: Env, n: nat): State
    requires p.Valid()
  {
    if n == 0 then State(0, 0, env, []) else Step(p, sem, Run(p, sem, env, n - 1))
  }

  lemma NextIsEdge(p: Program, sem: Semantics, h: History, b: nat)
    requires p.Valid() && b < |p.code| && p.g.succ[b] != []
    ensures p.g.Edge(b, NextBlock(p.g, sem, h, b))
  {
    var n := NextBlock(p.g, sem, h, b);
    assert n in p.g.succ[b];
  }
}
