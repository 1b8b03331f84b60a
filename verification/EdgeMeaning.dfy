/** When two vregs interfere (ssa.c:1322-1489). */
module EdgeMeaning {
  import opened Ir
  import opened EdgeMatrix
  import opened Separation
  import opened Interference

  /** The instruction defines `x` while `y` of the same class is live after it, unless it moves `y` to `x`. */
  predicate Defines(c: Context, i: Instr, after: set<nat>, x: nat, y: nat) {
    && i.dst == x != 0 && y in after && y != x && c.ClassOf(x) == c.ClassOf(y)
    && !(i.op in {Move, Cast, XMov, Extend, Convert} && i.src1 == y && y != 0)
  }

  /** A subtraction whose result must not be where the operand subtracted from, or subtracted, is. */
  predicate Subtracts(i: Instr, x: nat, y: nat) {
    i.dst != 0 && y == i.dst && x != 0 && ((i.op == Rsub && x == i.src1) || (i.op == XSub && x == i.src2))
  }

  /** Two operands that instruction selection wants distinct. */
  predicate Selects(c: Context, i: Instr, x: nat, y: nat) {
    && c.instrsel && i.op != Move && i.op != Cast && x != 0 && y != 0
    && ((x == i.dst && (y == i.src1 || y == i.src2)) || (x == i.src1 && y == i.src2))
  }

  /** The operand `v` must be in `reg`: nothing else live may be there, and `v` may be nowhere else. */
  predicate Demands(c: Context, v: nat, reg: nat, after: set<nat>, x: nat, y: nat) {
    v != 0 && reg != 0 && c.ClassOf(v) != NoClass &&
    ((x == reg && y in after && y != v) || (x == v && RegisterOf(c.ClassOf(v), y) && y != reg))
  }

  /** The first 12 vregs stand for the integer registers, the next 14 for floating point ones. */
  predicate RegisterOf(k: Class, y: nat) {
    match k
    case NoClass => false
    case Int => 1 <= y <= 12
    case Sse => 13 <= y <= 26
  }

  /** A call leaves anything in rdi, rsi, rcx, r8, r9 and xmm2 to xmm13, and in rax, rdx, xmm0 and xmm1 unless it
      returns something there. */
  predicate LostInCall(results: set<nat>, x: nat) {
    || x == RDI || x == RSI || x == RCX || x == R08 || x == R09 || XMM00 + 2 <= x <= XMM00 + 13
    || ((x == RAX || x == RDX || x == XMM00 || x == XMM00 + 1) && x !in results)
  }

  /** The call destroys register `x` while `y` is live after it, or finds the function in `y`. */
  predicate Calls(c: Context, i: Instr, d: Demand, after: set<nat>, x: nat, y: nat) {
    && (i.op == XCall || (i.op == Call && c.clobbers))
    && ((LostInCall(d.results, x) && y in after) || (x == RAX && y == i.src1 && y != 0))
  }

  /** Division works in rax and rdx, shifts in rcx, and the comparison of long doubles in rdx; those that are still to
      be selected only if the graph is to show that. */
  predicate WorksIn(c: Context, prev: Instr, i: Instr, x: nat) {
    match i.op
    case Divide => c.clobbers && (x == RAX || x == RDX)
    case XIdiv => c.clobbers && (x == RAX || x == RDX)
    case ShiftLeft => c.clobbers && x == RCX
    case ShiftRight => x == RCX
    case XShr => prev.dst != 0 && prev.src1 != 0 && x == RCX
    case XLdEqCmp => x == RDX
    case _ => false
  }

  /** The instruction needs register `x` for itself while `y` is live after it or one of its operands; a shift after a
      move keeps rcx clear of both ends of the move as well. */
  predicate Needs(c: Context, prev: Instr, i: Instr, after: set<nat>, x: nat, y: nat) {
    || (WorksIn(c, prev, i, x) && (y in after || (y != 0 && (y == i.dst || y == i.src1 || y == i.src2))))
    || (i.op == XShr && prev.dst != 0 && prev.src1 != 0 && (x == prev.dst || x == prev.src1) && y == RCX)
  }

  predicate DemandsAny(c: Context, i: Instr, d: Demand, after: set<nat>, x: nat, y: nat) {
    Demands(c, i.dst, d.dst, after, x, y) || Demands(c, i.src1, d.src1, after, x, y) ||
        Demands(c, i.src2, d.src2, after, x, y)
  }

  /** The instruction keeps `x` and `y` apart. */
  predicate Keeps(c: Context, prev: Instr, i: Instr, d: Demand, after: set<nat>, x: nat, y: nat) {
    || Defines(c, i, after, x, y) || Subtracts(i, x, y) || Selects(c, i, x, y)
    || DemandsAny(c, i, d, after, x, y) || Calls(c, i, d, after, x, y) || Needs(c, prev, i, after, x, y)
  }

  lemma ResultEdgesMean(c: Context, i: Instr, after: set<nat>, x: nat, y: nat)
    ensures (x, y) in ResultEdges(c, i, after) <==> Defines(c, i, after, x, y) || Subtracts(i, x, y)
  {
    assert i.dst != 0 ==> ((x, y) in Star(i.dst, Rivals(c, i, after)) <==> x == i.dst && y in Rivals(c, i, after));
  }

  lemma SelectionEdgesMean(c: Context, i: Instr, x: nat, y: nat)
    ensures (x, y) in SelectionEdges(c, i) <==> Selects(c, i, x, y)
  {
  }

  lemma ForcedMeans(c: Context, v: nat, reg: nat, after: set<nat>, x: nat, y: nat)
    ensures (x, y) in Forced(c, v, reg, after) <==> Demands(c, v, reg, after, x, y)
  {
    var others := ClassRegisters(c.ClassOf(v)) - {reg};
    assert y in ClassRegisters(c.ClassOf(v)) <==> RegisterOf(c.ClassOf(v), y);
    hide ClassRegisters, RegisterOf;
    assert (x, y) in Star(reg, after - {v}) <==> x == reg && y in after - {v};
    assert (x, y) in Star(v, others) <==> x == v && y in others;
  }

  lemma CallEdgesMean(c: Context, i: Instr, d: Demand, after: set<nat>, x: nat, y: nat)
    ensures (x, y) in CallEdges(c, i, d, after) <==> Calls(c, i, d, after, x, y)
  {
    CallClobbersMean(d.results, x);
    hide CallClobbers, LostInCall;
  }

  lemma CallClobbersMean(results: set<nat>, x: nat)
    ensures x in CallClobbers(results) <==> LostInCall(results, x)
  {
  }

  lemma ExcludedEdgesMean(c: Context, prev: Instr, i: Instr, after: set<nat>, x: nat, y: nat)
    ensures (x, y) in ExcludedEdges(c, prev, i, after) <==> Needs(c, prev, i, after, x, y)
  {
    ExcludedMeans(c, prev, i, x);
    hide Excluded, WorksIn;
  }

  lemma ExcludedMeans(c: Context, prev: Instr, i: Instr, x: nat)
    ensures x in Excluded(c, prev, i) <==> WorksIn(c, prev, i, x)
  {
  }

  lemma InstructionEdgesMean(c: Context, prev: Instr, i: Instr, d: Demand, after: set<nat>, x: nat, y: nat)
    ensures (x, y) in InstructionEdges(c, prev, i, d, after) <==> Keeps(c, prev, i, d, after, x, y)
  {
    hide ResultEdges, SelectionEdges, Forced, CallEdges, ExcludedEdges, Defines, Subtracts, Selects, Demands, Calls;
    hide Needs;
    ResultEdgesMean(c, i, after, x, y);
    SelectionEdgesMean(c, i, x, y);
    ForcedMeans(c, i.dst, d.dst, after, x, y);
    ForcedMeans(c, i.src1, d.src1, after, x, y);
    ForcedMeans(c, i.src2, d.src2, after, x, y);
    CallEdgesMean(c, i, d, after, x, y);
    ExcludedEdgesMean(c, prev, i, after, x, y);
  }

  // The program

  /** Instruction `k` of block `b` keeps `x` and `y` apart, whichever way round. */
  ghost predicate KeepsAt(p: Program, c: Context, out: seq<set<nat>>, b: nat, k: nat, x: nat, y: nat)
    requires Fits(p, c, out)
  {
    && b < |p.code| && k < |p.code[b]|
    && var prev, i, d, after := Previous(p, b, k), p.code[b][k], c.demands[b][k], LiveAt(p, out, b, k + 1);
      Keeps(c, prev, i, d, after, x, y) || Keeps(c, prev, i, d, after, y, x)
  }

  /** Some instruction keeps them apart. */
  ghost predicate KeptApart(p: Program, c: Context, out: seq<set<nat>>, x: nat, y: nat)
    requires Fits(p, c, out)
  {
    exists b: nat, k: nat :: KeepsAt(p, c, out, b, k, x, y)
  }

  lemma EdgesAtMean(p: Program, c: Context, out: seq<set<nat>>, b: nat, k: nat, x: nat, y: nat)
    requires Fits(p, c, out) && b < |p.code| && k < |p.code[b]|
    ensures Has(EdgesAt(p, c, out, b, k), x, y) <==> KeepsAt(p, c, out, b, k, x, y)
  {
    hide InstructionEdges, Keeps, LiveAt;
    var prev, i, d, after := Previous(p, b, k), p.code[b][k], c.demands[b][k], LiveAt(p, out, b, k + 1);
    InstructionEdgesMean(c, prev, i, d, after, x, y);
    InstructionEdgesMean(c, prev, i, d, after, y, x);
  }

  lemma {:induction false} EdgesFromMean(p: Program, c: Context, out: seq<set<nat>>, b: nat, k: nat, x: nat, y: nat)
    requires Fits(p, c, out) && b < |p.code| && k <= |p.code[b]|
    ensures Has(EdgesFrom(p, c, out, b, k), x, y) ==> KeptApart(p, c, out, x, y)
    decreases |p.code[b]| - k
  {
    hide EdgesAt, KeepsAt;
    if k < |p.code[b]| {
      EdgesFromMean(p, c, out, b, k + 1, x, y);
      EdgesAtMean(p, c, out, b, k, x, y);
    }
  }

  lemma {:induction false} BlockEdgesMean(p: Program, c: Context, out: seq<set<nat>>, b: nat, x: nat, y: nat)
    requires Fits(p, c, out) && b <= |p.code|
    ensures Has(BlockEdges(p, c, out, b), x, y) ==> KeptApart(p, c, out, x, y)
    decreases |p.code| - b
  {
    hide EdgesFrom, KeepsAt;
    if b < |p.code| {
      BlockEdgesMean(p, c, out, b + 1, x, y);
      EdgesFromMean(p, c, out, b, 0, x, y);
    }
  }

  /** The graph has an edge between two vregs exactly if some instruction keeps them apart. */
  lemma EdgesMean(p: Program, c: Context, out: seq<set<nat>>, x: nat, y: nat)
    requires Fits(p, c, out)
    ensures Has(AllEdges(p, c, out), x, y) <==> KeptApart(p, c, out, x, y)
  {
    hide EdgesAt, BlockEdges, LiveAt, Keeps;
    BlockEdgesMean(p, c, out, 0, x, y);
    if b: nat, k: nat :| KeepsAt(p, c, out, b, k, x, y) {
      EdgesAtMean(p, c, out, b, k, x, y);
      EdgeOfProgram(p, c, out, b, k);
    }
  }

  /** All instructions of some blocks, in one list. */
  function Listing(code: seq<seq<Instr>>): seq<Instr> {
    if code == [] then [] else Listing(code[..|code| - 1]) + code[|code| - 1]
  }

  /** The instruction before another is the one before it in the list of all instructions, also across blocks. */
  lemma {:induction false} PreviousInList(p: Program, b: nat, k: nat)
    requires b < |p.code| && k <= |p.code[b]|
    ensures var before := Listing(p.code[..b]) + p.code[b][..k];
      Previous(p, b, k) == if before == [] then Instr(Nop, 0, 0, 0, 0) else before[|before| - 1]
    decreases b
  {
    if k == 0 && b > 0 {
      PreviousInList(p, b - 1, |p.code[b - 1]|);
      assert p.code[..b][..b - 1] == p.code[..b - 1];
      assert p.code[b - 1][..|p.code[b - 1]|] == p.code[b - 1];
      assert Listing(p.code[..b]) + p.code[b][..0] == Listing(p.code[..b]);
    }
  }

  // The registers of divisions, shifts, comparisons and calls

  /** The vreg is live after instruction `k` of block `b` or one of its operands. */
  ghost predicate Around(p: Program, out: seq<set<nat>>, b: nat, k: nat, v: nat)
    requires |out| == |p.code| && b < |p.code| && k < |p.code[b]|
  {
    var i := p.code[b][k];
    v in LiveAt(p, out, b, k + 1) || (v != 0 && (v == i.dst || v == i.src1 || v == i.src2))
  }

  lemma Drawn(p: Program, c: Context, out: seq<set<nat>>, b: nat, k: nat, x: nat, y: nat)
    requires Fits(p, c, out) && b < |p.code| && k < |p.code[b]|
    requires var i, after := p.code[b][k], LiveAt(p, out, b, k + 1);
      Needs(c, Previous(p, b, k), i, after, x, y) || Calls(c, i, c.demands[b][k], after, x, y)
    ensures Has(AllEdges(p, c, out), x, y)
  {
    hide Needs, Calls, LiveAt, AllEdges;
    EdgesMean(p, c, out, x, y);
    assert KeepsAt(p, c, out, b, k, x, y);
  }

  /** Everything around a division is kept out of rax and rdx. */
  lemma DivisionDraws(p: Program, c: Context, out: seq<set<nat>>, b: nat, k: nat, v: nat)
    requires Fits(p, c, out) && b < |p.code| && k < |p.code[b]| && Around(p, out, b, k, v)
    requires c.clobbers && p.code[b][k].op in {Divide, XIdiv}
    ensures Has(AllEdges(p, c, out), RAX, v) && Has(AllEdges(p, c, out), RDX, v)
  {
    hide LiveAt, AllEdges;
    Drawn(p, c, out, b, k, RAX, v);
    Drawn(p, c, out, b, k, RDX, v);
  }

  /** Everything around a shift still to be selected is kept out of rcx. */
  lemma ShiftDraws(p: Program, c: Context, out: seq<set<nat>>, b: nat, k: nat, v: nat)
    requires Fits(p, c, out) && b < |p.code| && k < |p.code[b]| && Around(p, out, b, k, v)
    requires (c.clobbers && p.code[b][k].op == ShiftLeft) || p.code[b][k].op == ShiftRight
    ensures Has(AllEdges(p, c, out), RCX, v)
  {
    hide LiveAt, AllEdges;
    Drawn(p, c, out, b, k, RCX, v);
  }

  /** Everything around a machine shift after a move, and both ends of the move, are kept out of rcx. */
  lemma MachineShiftDraws(p: Program, c: Context, out: seq<set<nat>>, b: nat, k: nat, v: nat)
    requires Fits(p, c, out) && b < |p.code| && k < |p.code[b]|
    requires var prev := Previous(p, b, k);
      && p.code[b][k].op == XShr && prev.dst != 0 && prev.src1 != 0
      && (Around(p, out, b, k, v) || v == prev.dst || v == prev.src1)
    ensures Has(AllEdges(p, c, out), RCX, v)
  {
    hide LiveAt, AllEdges;
    if Around(p, out, b, k, v) { Drawn(p, c, out, b, k, RCX, v); } else { Drawn(p, c, out, b, k, v, RCX); }
  }

  /** Everything around a comparison of long doubles is kept out of rdx. */
  lemma LongDoubleComparisonDraws(p: Program, c: Context, out: seq<set<nat>>, b: nat, k: nat, v: nat)
    requires Fits(p, c, out) && b < |p.code| && k < |p.code[b]| && Around(p, out, b, k, v)
    requires p.code[b][k].op == XLdEqCmp
    ensures Has(AllEdges(p, c, out), RDX, v)
  {
    hide LiveAt, AllEdges;
    Drawn(p, c, out, b, k, RDX, v);
  }

  /** What is live after a call is kept out of the registers it destroys, and the function called out of rax. */
  lemma CallDraws(p: Program, c: Context, out: seq<set<nat>>, b: nat, k: nat, v: nat)
    requires Fits(p, c, out) && b < |p.code| && k < |p.code[b]|
    requires p.code[b][k].op == XCall || (p.code[b][k].op == Call && c.clobbers)
    ensures v in LiveAt(p, out, b, k + 1) ==>
              forall r: nat | r in {RDI, RSI, RCX, R08, R09} || XMM00 + 2 <= r < XMM00 + 14 ||
                  (r in {RAX, RDX, XMM00, XMM00 + 1} && r !in c.demands[b][k].results) ::
                Has(AllEdges(p, c, out), r, v)
    ensures v == p.code[b][k].src1 != 0 ==> Has(AllEdges(p, c, out), RAX, v)
  {
    hide LiveAt, AllEdges;
    if v == p.code[b][k].src1 != 0 { Drawn(p, c, out, b, k, RAX, v); }
    if v in LiveAt(p, out, b, k + 1) {
      forall r: nat | LostInCall(c.demands[b][k].results, r) ensures Has(AllEdges(p, c, out), r, v) {
        Drawn(p, c, out, b, k, r, v);
      }
    }
  }

  // Vregs that are not reserved for registers

  /** The instruction defines `x` while `y` is live, subtracts one from the other, or wants them distinct. */
  predicate Parts(c: Context, i: Instr, after: set<nat>, x: nat, y: nat) {
    Defines(c, i, after, x, y) || Subtracts(i, x, y) || Selects(c, i, x, y)
  }

  ghost predicate PartsAt(p: Program, c: Context, out: seq<set<nat>>, b: nat, k: nat, x: nat, y: nat)
    requires Fits(p, c, out)
  {
    && b < |p.code| && k < |p.code[b]|
    && var i, after := p.code[b][k], LiveAt(p, out, b, k + 1); Parts(c, i, after, x, y) || Parts(c, i, after, y, x)
  }

  lemma KeepsIsParts(c: Context, prev: Instr, i: Instr, d: Demand, after: set<nat>, x: nat, y: nat)
    requires x > RESERVED && y > RESERVED && Reserved(d)
    ensures Keeps(c, prev, i, d, after, x, y) <==> Parts(c, i, after, x, y)
  {
    RegistersAreReserved(c, prev, i, d);
    hide RegisterOf, LostInCall, WorksIn, Defines, Subtracts, Selects;
  }

  lemma RegistersAreReserved(c: Context, prev: Instr, i: Instr, d: Demand)
    ensures forall r: nat, k: Class | RegisterOf(k, r) :: r <= RESERVED
    ensures forall r: nat | LostInCall(d.results, r) :: r <= RESERVED
    ensures forall r: nat | WorksIn(c, prev, i, r) :: r <= RESERVED
  {
  }

  lemma KeepsAtIsPartsAt(p: Program, c: Context, out: seq<set<nat>>, n: nat, b: nat, k: nat, x: nat, y: nat)
    requires Fits(p, c, out) && Numbered(p, c, out, n) && x > RESERVED && y > RESERVED
    ensures KeepsAt(p, c, out, b, k, x, y) <==> PartsAt(p, c, out, b, k, x, y)
  {
    hide Keeps, Parts, LiveAt;
    if b < |p.code| && k < |p.code[b]| {
      var prev, i, d, after := Previous(p, b, k), p.code[b][k], c.demands[b][k], LiveAt(p, out, b, k + 1);
      KeepsIsParts(c, prev, i, d, after, x, y);
      KeepsIsParts(c, prev, i, d, after, y, x);
    }
  }

  /** Such vregs interfere exactly if an instruction defines one while the other is live after it, unless it moves
      that to the one defined, subtracts one from the other, or has both as operands that instruction selection wants
      distinct. */
  lemma VregsInterfere(p: Program, c: Context, out: seq<set<nat>>, n: nat, x: nat, y: nat)
    requires Fits(p, c, out) && Numbered(p, c, out, n) && x > RESERVED && y > RESERVED
    ensures Has(AllEdges(p, c, out), x, y) <==> exists b: nat, k: nat :: PartsAt(p, c, out, b, k, x, y)
  {
    hide AllEdges, KeepsAt, PartsAt, Numbered;
    EdgesMean(p, c, out, x, y);
    forall b: nat, k: nat ensures KeepsAt(p, c, out, b, k, x, y) <==> PartsAt(p, c, out, b, k, x, y) {
      KeepsAtIsPartsAt(p, c, out, n, b, k, x, y);
    }
  }
}
