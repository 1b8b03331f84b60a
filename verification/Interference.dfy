/** The interference graph (make_interference_graph, ssa.c:1271-1287, 1322-1353, 1369-1517). The edges that one
    instruction calls for are written down as sets first: operands forced into registers, registers that calls,
    divisions and shifts destroy, the result against what is live, and what instruction selection wants. The
    construction is then exact. */
module Interference {
  import opened Cfgs
  import opened Ir
  import opened EdgeMatrix
  import opened Separation
  import opened Basics

  // Reserved live ranges for the registers, wcc.h:1131-1148

  const INT_COUNT: nat := 12
  const SSE_COUNT: nat := 14
  const RESERVED: nat := 26
  const RAX: nat := 1
  const RCX: nat := 3
  const RDX: nat := 4
  const RSI: nat := 5
  const RDI: nat := 6
  const R08: nat := 7
  const R09: nat := 8
  const XMM00: nat := 13

  /** Register classes; a vreg that no instruction mentions has none. */
  datatype Class = NoClass | Int | Sse

  /** What one instruction demands of registers: the register an operand must get, 0 if any will do, and, for a call,
      the registers that hold its result. */
  datatype Demand = Demand(dst: nat, src1: nat, src2: nat, results: set<nat>)

  /** What the graph is made from: the classes of the vregs, the demands of the instructions, and which extra edges
      are wanted. */
  datatype Context = Context(classes: seq<Class>, types: seq<nat>, demands: seq<seq<Demand>>, clobbers: bool,
                             instrsel: bool) {
    function ClassOf(v: nat): Class {
      if 0 < v <= INT_COUNT then Int
      else if 0 < v <= RESERVED then Sse
      else if v < |classes| then classes[v] else NoClass
    }

    /** The type of the values of a vreg, by number. */
    function TypeOf(v: nat): nat {
      if v < |types| then types[v] else 0
    }
  }

  function Range(first: nat, count: nat): (s: set<nat>)
    ensures forall r: nat :: r in s <==> first <= r < first + count
  {
    if count == 0 then {} else Range(first, count - 1) + {first + count - 1}
  }

  function ClassRegisters(c: Class): set<nat> {
    match c
    case NoClass => {}
    case Int => Range(1, INT_COUNT)
    case Sse => Range(INT_COUNT + 1, SSE_COUNT)
  }

  /** Registers a call destroys: those for arguments and results, and all of the SSE class, but not those it returns
      in. */
  function CallClobbers(results: set<nat>): set<nat> {
    {RDI, RSI, RCX, R08, R09} + ({RAX, RDX} - results) +
    Range(XMM00 + 2, SSE_COUNT - 2) + ({XMM00, XMM00 + 1} - results)
  }

  predicate ClobbersAtCall(c: Context, i: Instr) {
    (c.clobbers && i.op == Call) || i.op == XCall
  }

  /** Registers that neither the operands nor anything live may be in. */
  function Excluded(c: Context, prev: Instr, i: Instr): set<nat> {
    (if c.clobbers && (i.op == Divide || i.op == XIdiv) then {RAX, RDX} else {}) +
    (if (c.clobbers && i.op == ShiftLeft) || i.op == ShiftRight then {RCX} else {}) +
    (if ShiftsPrevious(prev, i) then {RCX} else {}) +
    (if i.op == XLdEqCmp then {RDX} else {})
  }

  predicate ShiftsPrevious(prev: Instr, i: Instr) {
    i.op == XShr && prev.dst != 0 && prev.src1 != 0
  }

  predicate IsIrMove(i: Instr) {
    i.op == Move || i.op == Cast
  }

  predicate IsMove(i: Instr) {
    IsIrMove(i) || i.op == XMov || i.op == Extend || i.op == Convert
  }

  function Mentioned(i: Instr): set<nat> {
    Operands(i) + if i.dst != 0 then {i.dst} else {}
  }

  // The edges of one instruction

  /** An operand that must be in register `reg`. */
  function Forced(c: Context, v: nat, reg: nat, after: set<nat>): set<Edge> {
    if v == 0 || reg == 0 || c.ClassOf(v) == NoClass then {}
    else Star(reg, after - {v}) + Star(v, ClassRegisters(c.ClassOf(v)) - {reg})
  }

  function ForcedEdges(c: Context, i: Instr, d: Demand, after: set<nat>): set<Edge> {
    Forced(c, i.dst, d.dst, after) + Forced(c, i.src1, d.src1, after) + Forced(c, i.src2, d.src2, after)
  }

  /** Every register of `regs` with every vreg of `s`. */
  function Product(regs: set<nat>, s: set<nat>): set<Edge> {
    set r, v | r in regs && v in s :: (r, v)
  }

  function CallEdges(c: Context, i: Instr, d: Demand, after: set<nat>): set<Edge> {
    if !ClobbersAtCall(c, i) then {}
    else Product(CallClobbers(d.results), after) + if i.src1 != 0 then {(RAX, i.src1)} else {}
  }

  function ExcludedEdges(c: Context, prev: Instr, i: Instr, after: set<nat>): set<Edge> {
    Product(Excluded(c, prev, i), after + Mentioned(i)) +
    if ShiftsPrevious(prev, i) then {(prev.dst, RCX), (prev.src1, RCX)} else {}
  }

  /** The vregs that the result must be kept apart from. */
  function Rivals(c: Context, i: Instr, after: set<nat>): set<nat> {
    set v | v in after && v != i.dst && c.ClassOf(i.dst) == c.ClassOf(v) && !(IsMove(i) && i.src1 != 0 && i.src1 == v)
  }

  function ResultEdges(c: Context, i: Instr, after: set<nat>): set<Edge> {
    if i.dst == 0 then {} else
      (if i.op == Rsub && i.src1 != 0 then {(i.src1, i.dst)} else {}) +
      (if i.op == XSub && i.src2 != 0 then {(i.src2, i.dst)} else {}) +
      Star(i.dst, Rivals(c, i, after))
  }

  /** Operands that instruction selection wants distinct. */
  function SelectionEdges(c: Context, i: Instr): set<Edge> {
    if !c.instrsel || IsIrMove(i) then {} else
      (if i.dst != 0 && i.src1 != 0 then {(i.dst, i.src1)} else {}) +
      (if i.dst != 0 && i.src2 != 0 then {(i.dst, i.src2)} else {}) +
      (if i.src1 != 0 && i.src2 != 0 then {(i.src1, i.src2)} else {})
  }

  function InstructionEdges(c: Context, prev: Instr, i: Instr, d: Demand, after: set<nat>): set<Edge> {
    ForcedEdges(c, i, d, after) + CallEdges(c, i, d, after) + ExcludedEdges(c, prev, i, after) +
    ResultEdges(c, i, after) + SelectionEdges(c, i)
  }

  // The edges of a program

  /** The instruction before instruction `k` of block `b` in the list of all instructions; a Nop if there is none. */
  function Previous(p: Program, b: nat, k: nat): Instr
    requires b < |p.code| && k <= |p.code[b]|
    decreases b
  {
    if k > 0 then p.code[b][k - 1] else if b == 0 then Instr(Nop, 0, 0, 0, 0) else Previous(p, b - 1, |p.code[b - 1]|)
  }

  ghost predicate Fits(p: Program, c: Context, out: seq<set<nat>>) {
    && |out| == |p.code| == |c.demands| && forall b | 0 <= b < |p.code| :: |c.demands[b]| == |p.code[b]|
  }

  ghost function EdgesAt(p: Program, c: Context, out: seq<set<nat>>, b: nat, k: nat): set<Edge>
    requires Fits(p, c, out) && b < |p.code| && k < |p.code[b]|
  {
    InstructionEdges(c, Previous(p, b, k), p.code[b][k], c.demands[b][k], LiveAt(p, out, b, k + 1))
  }

  ghost function EdgesFrom(p: Program, c: Context, out: seq<set<nat>>, b: nat, k: nat): set<Edge>
    requires Fits(p, c, out) && b < |p.code| && k <= |p.code[b]|
    decreases |p.code[b]| - k
  {
    if k == |p.code[b]| then {} else EdgesFrom(p, c, out, b, k + 1) + EdgesAt(p, c, out, b, k)
  }

  ghost function BlockEdges(p: Program, c: Context, out: seq<set<nat>>, b: nat): set<Edge>
    requires Fits(p, c, out) && b <= |p.code|
    decreases |p.code| - b
  {
    if b == |p.code| then {} else BlockEdges(p, c, out, b + 1) + EdgesFrom(p, c, out, b, 0)
  }

  ghost function AllEdges(p: Program, c: Context, out: seq<set<nat>>): set<Edge>
    requires Fits(p, c, out)
  {
    BlockEdges(p, c, out, 0)
  }

  lemma {:induction false} EdgeOfInstruction(p: Program, c: Context, out: seq<set<nat>>, b: nat, j: nat, k: nat)
    requires Fits(p, c, out) && b < |p.code| && j <= k < |p.code[b]|
    ensures EdgesAt(p, c, out, b, k) <= EdgesFrom(p, c, out, b, j)
    decreases k - j
  {
    hide EdgesAt;
    if j < k { EdgeOfInstruction(p, c, out, b, j + 1, k); }
  }

  lemma {:induction false} EdgeOfBlock(p: Program, c: Context, out: seq<set<nat>>, a: nat, b: nat)
    requires Fits(p, c, out) && a <= b < |p.code|
    ensures EdgesFrom(p, c, out, b, 0) <= BlockEdges(p, c, out, a)
    decreases b - a
  {
    hide EdgesFrom, EdgesAt;
    if a < b { EdgeOfBlock(p, c, out, a + 1, b); }
  }

  lemma EdgeOfProgram(p: Program, c: Context, out: seq<set<nat>>, b: nat, k: nat)
    requires Fits(p, c, out) && b < |p.code| && k < |p.code[b]|
    ensures EdgesAt(p, c, out, b, k) <= AllEdges(p, c, out)
  {
    EdgeOfInstruction(p, c, out, b, 0, k);
    EdgeOfBlock(p, c, out, 0, b);
  }

  // Construction

  /** All numbers that get into the graph are within it. */
  ghost predicate InGraph(n: nat, i: Instr) {
    i.dst <= n && i.src1 <= n && i.src2 <= n
  }

  ghost predicate AllVregs(n: nat, s: set<nat>) {
    forall v | v in s :: Vreg(n, v)
  }

  /** Clobber: an edge from each register of `regs` to each vreg of `s`. */
  method AddProduct(ig: array<bool>, n: nat, regs: set<nat>, s: set<nat>, ghost edges: set<Edge>)
    requires Draws(ig[..], n, edges) && AllVregs(n, regs) && AllVregs(n, s)
    modifies ig
    ensures Draws(ig[..], n, edges + Product(regs, s))
  {
    hide Draws;
    var todo := regs;
    assert edges + Product(regs - todo, s) == edges;
    while todo != {}
      invariant todo <= regs && Draws(ig[..], n, edges + Product(regs - todo, s))
    {
      var r := AnyOf(todo);
      ghost var was := edges + Product(regs - todo, s);
      AddStar(ig, n, r, s, was);
      todo := todo - {r};
      assert was + Star(r, s) == edges + Product(regs - todo, s);
    }
    assert regs - todo == regs;
  }

  method AddForced(ig: array<bool>, n: nat, c: Context, v: nat, reg: nat, after: set<nat>, ghost edges: set<Edge>)
    requires Draws(ig[..], n, edges) && v <= n && reg <= RESERVED <= n && AllVregs(n, after)
    modifies ig
    ensures Draws(ig[..], n, edges + Forced(c, v, reg, after))
  {
    hide Draws;
    if v != 0 && reg != 0 && c.ClassOf(v) != NoClass {
      AddStar(ig, n, reg, after - {v}, edges);
      AddStar(ig, n, v, ClassRegisters(c.ClassOf(v)) - {reg}, edges + Star(reg, after - {v}));
      assert edges + Star(reg, after - {v}) + Star(v, ClassRegisters(c.ClassOf(v)) - {reg}) ==
             edges + Forced(c, v, reg, after);
    } else {
      assert edges + Forced(c, v, reg, after) == edges;
    }
  }

  method AddOne(ig: array<bool>, n: nat, wanted: bool, a: nat, b: nat, ghost edges: set<Edge>)
    requires Draws(ig[..], n, edges) && (wanted ==> Vreg(n, a) && Vreg(n, b))
    modifies ig
    ensures Draws(ig[..], n, edges + if wanted then {(a, b)} else {})
  {
    hide Draws;
    assert edges + {} == edges;
    if wanted { AddEdge(ig, n, a, b, edges); }
  }

  method AddCallEdges(ig: array<bool>, n: nat, c: Context, i: Instr, d: Demand, after: set<nat>, ghost edges: set<Edge>)
    requires Draws(ig[..], n, edges) && RESERVED <= n && InGraph(n, i) && AllVregs(n, after)
    modifies ig
    ensures Draws(ig[..], n, edges + CallEdges(c, i, d, after))
  {
    hide Draws, Product;
    if ClobbersAtCall(c, i) {
      AddProduct(ig, n, CallClobbers(d.results), after, edges);
      ghost var was := edges + Product(CallClobbers(d.results), after);
      AddOne(ig, n, i.src1 != 0, RAX, i.src1, was);
      assert was + (if i.src1 != 0 then {(RAX, i.src1)} else {}) == edges + CallEdges(c, i, d, after);
    } else {
      assert edges + CallEdges(c, i, d, after) == edges;
    }
  }

  method AddExcluded(ig: array<bool>, n: nat, c: Context, prev: Instr, i: Instr, after: set<nat>,
                     ghost edges: set<Edge>)
    requires Draws(ig[..], n, edges) && RESERVED <= n && InGraph(n, prev) && InGraph(n, i) && AllVregs(n, after)
    modifies ig
    ensures Draws(ig[..], n, edges + ExcludedEdges(c, prev, i, after))
  {
    hide Draws, Product;
    var all := after + Mentioned(i);
    AddProduct(ig, n, Excluded(c, prev, i), all, edges);
    ghost var was := edges + Product(Excluded(c, prev, i), all);
    var wanted := ShiftsPrevious(prev, i);
    AddOne(ig, n, wanted, prev.dst, RCX, was);
    ghost var now := was + if wanted then {(prev.dst, RCX)} else {};
    AddOne(ig, n, wanted, prev.src1, RCX, now);
    assert now + (if wanted then {(prev.src1, RCX)} else {}) == edges + ExcludedEdges(c, prev, i, after);
  }

  method AddResultEdges(ig: array<bool>, n: nat, c: Context, i: Instr, after: set<nat>, ghost edges: set<Edge>)
    requires Draws(ig[..], n, edges) && InGraph(n, i) && AllVregs(n, after)
    modifies ig
    ensures Draws(ig[..], n, edges + ResultEdges(c, i, after))
  {
    hide Draws, Star;
    if i.dst != 0 {
      var rsub, xsub := i.op == Rsub && i.src1 != 0, i.op == XSub && i.src2 != 0;
      AddOne(ig, n, rsub, i.src1, i.dst, edges);
      ghost var was := edges + if rsub then {(i.src1, i.dst)} else {};
      AddOne(ig, n, xsub, i.src2, i.dst, was);
      ghost var now := was + if xsub then {(i.src2, i.dst)} else {};
      AddStar(ig, n, i.dst, Rivals(c, i, after), now);
      assert now + Star(i.dst, Rivals(c, i, after)) == edges + ResultEdges(c, i, after);
    } else {
      assert edges + ResultEdges(c, i, after) == edges;
    }
  }

  method AddSelectionEdges(ig: array<bool>, n: nat, c: Context, i: Instr, ghost edges: set<Edge>)
    requires Draws(ig[..], n, edges) && InGraph(n, i)
    modifies ig
    ensures Draws(ig[..], n, edges + SelectionEdges(c, i))
  {
    hide Draws;
    if c.instrsel && !IsIrMove(i) {
      AddOne(ig, n, i.dst != 0 && i.src1 != 0, i.dst, i.src1, edges);
      ghost var was := edges + if i.dst != 0 && i.src1 != 0 then {(i.dst, i.src1)} else {};
      AddOne(ig, n, i.dst != 0 && i.src2 != 0, i.dst, i.src2, was);
      ghost var now := was + if i.dst != 0 && i.src2 != 0 then {(i.dst, i.src2)} else {};
      AddOne(ig, n, i.src1 != 0 && i.src2 != 0, i.src1, i.src2, now);
      assert now + (if i.src1 != 0 && i.src2 != 0 then {(i.src1, i.src2)} else {}) == edges + SelectionEdges(c, i);
    } else {
      assert edges + SelectionEdges(c, i) == edges;
    }
  }

  method AddInstruction(ig: array<bool>, n: nat, c: Context, prev: Instr, i: Instr, d: Demand, after: set<nat>,
                        ghost edges: set<Edge>)
    requires Draws(ig[..], n, edges) && RESERVED <= n && InGraph(n, prev) && InGraph(n, i) && AllVregs(n, after)
    requires d.dst <= RESERVED && d.src1 <= RESERVED && d.src2 <= RESERVED
    modifies ig
    ensures Draws(ig[..], n, edges + InstructionEdges(c, prev, i, d, after))
  {
    hide Draws, Forced, CallEdges, ExcludedEdges, ResultEdges, SelectionEdges;
    AddForced(ig, n, c, i.dst, d.dst, after, edges);
    ghost var e1 := edges + Forced(c, i.dst, d.dst, after);
    AddForced(ig, n, c, i.src1, d.src1, after, e1);
    ghost var e2 := e1 + Forced(c, i.src1, d.src1, after);
    AddForced(ig, n, c, i.src2, d.src2, after, e2);
    ghost var e3 := e2 + Forced(c, i.src2, d.src2, after);
    AddCallEdges(ig, n, c, i, d, after, e3);
    ghost var e4 := e3 + CallEdges(c, i, d, after);
    AddExcluded(ig, n, c, prev, i, after, e4);
    ghost var e5 := e4 + ExcludedEdges(c, prev, i, after);
    AddResultEdges(ig, n, c, i, after, e5);
    ghost var e6 := e5 + ResultEdges(c, i, after);
    AddSelectionEdges(ig, n, c, i, e6);
    assert e6 + SelectionEdges(c, i) == edges + InstructionEdges(c, prev, i, d, after);
  }

  ghost predicate Numbered(p: Program, c: Context, out: seq<set<nat>>, n: nat)
    requires Fits(p, c, out)
  {
    && RESERVED <= n && (forall b | 0 <= b < |out| :: AllVregs(n, out[b]))
    && (forall b, k | 0 <= b < |p.code| && 0 <= k < |p.code[b]| :: InGraph(n, p.code[b][k]))
    && (forall b, k | 0 <= b < |p.code| && 0 <= k < |p.code[b]| :: Reserved(c.demands[b][k]))
  }

  ghost predicate Reserved(d: Demand) {
    d.dst <= RESERVED && d.src1 <= RESERVED && d.src2 <= RESERVED
  }

  lemma {:induction false} PreviousInGraph(p: Program, c: Context, out: seq<set<nat>>, n: nat, b: nat, k: nat)
    requires Fits(p, c, out) && Numbered(p, c, out, n) && b < |p.code| && k <= |p.code[b]|
    ensures InGraph(n, Previous(p, b, k))
    decreases b
  {
    if k == 0 && b > 0 { PreviousInGraph(p, c, out, n, b - 1, |p.code[b - 1]|); }
  }

  /** The instruction before, found by following the list. */
  method FindPrevious(p: Program, b: nat, k: nat) returns (i: Instr)
    requires b < |p.code| && k < |p.code[b]|
    ensures i == Previous(p, b, k)
  {
    var c: nat, h: nat := b, k;
    while h == 0 && c > 0
      invariant c < |p.code| && h <= |p.code[c]| && Previous(p, c, h) == Previous(p, b, k)
      decreases c
    {
      c := c - 1;
      h := |p.code[c]|;
    }
    i := if h > 0 then p.code[c][h - 1] else Instr(Nop, 0, 0, 0, 0);
  }

  /** The edges of block `b`, going backwards with the set of vregs live at each point. */
  method AddBlock(ig: array<bool>, n: nat, p: Program, c: Context, out: seq<set<nat>>, b: nat, ghost edges: set<Edge>)
    requires Fits(p, c, out) && Numbered(p, c, out, n) && b < |p.code| && Draws(ig[..], n, edges)
    modifies ig
    ensures Draws(ig[..], n, edges + EdgesFrom(p, c, out, b, 0))
  {
    hide Draws, InstructionEdges;
    var livenow := out[b];
    assert edges + EdgesFrom(p, c, out, b, |p.code[b]|) == edges;
    for k := |p.code[b]| downto 0
      invariant livenow == LiveAt(p, out, b, k) && AllVregs(n, livenow)
      invariant Draws(ig[..], n, edges + EdgesFrom(p, c, out, b, k))
    {
      var i, d := p.code[b][k], c.demands[b][k];
      var prev := FindPrevious(p, b, k);
      PreviousInGraph(p, c, out, n, b, k);
      assert InGraph(n, i) && Reserved(d);
      ghost var was := edges + EdgesFrom(p, c, out, b, k + 1);
      AddInstruction(ig, n, c, prev, i, d, livenow, was);
      assert was + EdgesAt(p, c, out, b, k) == edges + EdgesFrom(p, c, out, b, k);
      if i.dst != 0 { livenow := livenow - {i.dst}; }
      if i.src1 != 0 { livenow := livenow + {i.src1}; }
      if i.src2 != 0 { livenow := livenow + {i.src2}; }
    }
  }

  /** The graph holds exactly the edges that its instructions call for. */
  method MakeInterferenceGraph(p: Program, c: Context, out: seq<set<nat>>, n: nat) returns (ig: array<bool>)
    requires Fits(p, c, out) && Numbered(p, c, out, n)
    ensures fresh(ig) && Draws(ig[..], n, AllEdges(p, c, out))
  {
    hide Draws, Numbered;
    ig := NewMatrix(n);
    for b := |p.code| downto 0
      invariant fresh(ig) && Draws(ig[..], n, BlockEdges(p, c, out, b))
    {
      AddBlock(ig, n, p, c, out, b, BlockEdges(p, c, out, b + 1));
    }
  }

  lemma InstructionWithin(n: nat, c: Context, prev: Instr, i: Instr, d: Demand, after: set<nat>)
    requires RESERVED <= n && InGraph(n, prev) && InGraph(n, i) && AllVregs(n, after) && Reserved(d)
    ensures Within(n, InstructionEdges(c, prev, i, d, after))
  {
    hide Forced, CallEdges, ExcludedEdges, ResultEdges;
    ForcedWithin(n, c, i.dst, d.dst, after);
    ForcedWithin(n, c, i.src1, d.src1, after);
    ForcedWithin(n, c, i.src2, d.src2, after);
    CallWithin(n, c, i, d, after);
    ExcludedWithin(n, c, prev, i, after);
    ResultWithin(n, c, i, after);
  }

  lemma CallWithin(n: nat, c: Context, i: Instr, d: Demand, after: set<nat>)
    requires RESERVED <= n && InGraph(n, i) && AllVregs(n, after)
    ensures Within(n, CallEdges(c, i, d, after))
  {
  }

  lemma ExcludedWithin(n: nat, c: Context, prev: Instr, i: Instr, after: set<nat>)
    requires RESERVED <= n && InGraph(n, prev) && InGraph(n, i) && AllVregs(n, after)
    ensures Within(n, ExcludedEdges(c, prev, i, after))
  {
  }

  lemma ResultWithin(n: nat, c: Context, i: Instr, after: set<nat>)
    requires InGraph(n, i) && AllVregs(n, after)
    ensures Within(n, ResultEdges(c, i, after))
  {
  }

  lemma ForcedWithin(n: nat, c: Context, v: nat, reg: nat, after: set<nat>)
    requires RESERVED <= n && v <= n && reg <= RESERVED && AllVregs(n, after)
    ensures Within(n, Forced(c, v, reg, after))
  {
  }

  lemma LiveVregs(p: Program, c: Context, out: seq<set<nat>>, n: nat, b: nat, k: nat)
    requires Fits(p, c, out) && Numbered(p, c, out, n) && b < |p.code| && k <= |p.code[b]|
    ensures AllVregs(n, LiveAt(p, out, b, k))
    decreases |p.code[b]| - k
  {
    if k < |p.code[b]| {
      LiveVregs(p, c, out, n, b, k + 1);
      assert InGraph(n, p.code[b][k]);
    }
  }

  lemma {:induction false} EdgesFromWithin(p: Program, c: Context, out: seq<set<nat>>, n: nat, b: nat, k: nat)
    requires Fits(p, c, out) && Numbered(p, c, out, n) && b < |p.code| && k <= |p.code[b]|
    ensures Within(n, EdgesFrom(p, c, out, b, k))
    decreases |p.code[b]| - k
  {
    hide InstructionEdges, LiveAt;
    if k < |p.code[b]| {
      EdgesFromWithin(p, c, out, n, b, k + 1);
      PreviousInGraph(p, c, out, n, b, k);
      LiveVregs(p, c, out, n, b, k + 1);
      assert InGraph(n, p.code[b][k]) && Reserved(c.demands[b][k]);
      InstructionWithin(n, c, Previous(p, b, k), p.code[b][k], c.demands[b][k], LiveAt(p, out, b, k + 1));
    }
  }

  /** The edges stay within the graph. */
  lemma {:induction false} EdgesWithin(p: Program, c: Context, out: seq<set<nat>>, n: nat, b: nat)
    requires Fits(p, c, out) && Numbered(p, c, out, n) && b <= |p.code|
    ensures Within(n, BlockEdges(p, c, out, b))
    decreases |p.code| - b
  {
    hide EdgesFrom, Numbered;
    if b < |p.code| {
      EdgesWithin(p, c, out, n, b + 1);
      EdgesFromWithin(p, c, out, n, b, 0);
    }
  }

  lemma AllWithin(p: Program, c: Context, out: seq<set<nat>>, n: nat)
    requires Fits(p, c, out) && Numbered(p, c, out, n)
    ensures Within(n, AllEdges(p, c, out))
  {
    EdgesWithin(p, c, out, n, 0);
  }
}
