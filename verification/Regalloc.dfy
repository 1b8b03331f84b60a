/** Register allocation and why it preserves meaning (regalloc.c:313-432). */
module Regalloc {
  import opened Cfgs
  import opened Ir
  import opened EdgeMatrix
  import opened Separation
  import opened Widths
  import opened Interference
  import opened EdgeMeaning
  import opened InterferenceSound
  import opened Coloring

  /** Machine register numbers, wcc.h:594-618, of the registers vregs can get: rbp, rsp, r10 and r11 are left out. */
  function MachineRegister(preg: nat): nat {
    if preg < 6 then preg else if preg < 8 then preg + 2 else preg + 4
  }

  method FillLow(pregMap: array<nat>)
    requires pregMap.Length == RESERVED
    modifies pregMap
    ensures forall i | 0 <= i < 6 :: pregMap[i] == MachineRegister(i)
  {
    pregMap[0], pregMap[1], pregMap[2] := 0, 1, 2;
    pregMap[3], pregMap[4], pregMap[5] := 3, 4, 5;
  }

  method FillHigh(pregMap: array<nat>)
    requires pregMap.Length == RESERVED
    modifies pregMap
    ensures forall i | 0 <= i < 6 :: pregMap[i] == old(pregMap[i])
    ensures forall i | 6 <= i < INT_COUNT :: pregMap[i] == MachineRegister(i)
  {
    pregMap[6], pregMap[7] := 8, 9;
    pregMap[8], pregMap[9], pregMap[10], pregMap[11] := 12, 13, 14, 15;
  }

  /** Fill the map from the allocator's register numbers to those of the machine: rax, rbx, rcx, rdx, rsi, rdi, r8, r9
      and r12 to r15, then xmm0 to xmm13. */
  method InitPregMap() returns (pregMap: array<nat>)
    ensures fresh(pregMap) && pregMap.Length == 26
    ensures forall i | 0 <= i < RESERVED :: pregMap[i] == MachineRegister(i)
    ensures pregMap[..12] == [0, 1, 2, 3, 4, 5, 8, 9, 12, 13, 14, 15]
      && forall i | 12 <= i < 26 :: pregMap[i] == 4 + i
  {
    pregMap := new nat[RESERVED];
    FillLow(pregMap);
    FillHigh(pregMap);
    for i := 0 to SSE_COUNT
      invariant forall k | 0 <= k < INT_COUNT + i :: pregMap[k] == MachineRegister(k)
    {
      pregMap[INT_COUNT + i] := 16 + i;
    }
  }

  lemma MachineRegisterInjective(a: nat, b: nat)
    requires MachineRegister(a) == MachineRegister(b)
    ensures a == b
  {
  }

  /** What a whole allocation ends in. */
  ghost predicate Allocated(j: Job, l: Locations) {
    && Colored(j, l, ClassMembers(j, Int) + ClassMembers(j, Sse))
    && SpillsBlocked(j, l.preg, Int) && SpillsBlocked(j, l.preg, Sse)
  }

  method AllocateRegisters(ig: array<bool>, j: Job, order: seq<nat>, prefer: seq<nat>, usePreferences: bool)
    returns (preg: array<int>, slot: array<int>, spills: nat)
    requires Draws(ig[..], j.n, j.edges) && j.Valid() && IsOrder(j.n, order) && PrefersOwnClass(j, prefer)
    ensures fresh(preg) && fresh(slot) && preg != slot && Allocated(j, Locations(preg[..], slot[..], spills))
    ensures preg.Length == j.n + 1
    ensures forall a: nat, b: nat | Vreg(j.n, a) && Vreg(j.n, b) && a != b && Has(j.edges, a, b) ::
              preg[a] == -1 || preg[a] != preg[b]
    ensures forall v: nat | HasFewNeighbors(j, v) :: InClass(j.context.ClassOf(v), preg[v])
    ensures TopDown(j, preg[..], order, prefer, usePreferences, Int, {})
    ensures TopDown(j, preg[..], order, prefer, usePreferences, Sse, ClassMembers(j, Int))
  {
    hide Draws, Colored, TopDown, SpillsBlocked, HasFewNeighbors, InClass;
    preg := new int[j.n + 1](_ => -1);
    slot := new int[j.n + 1](_ => 0);
    spills := j.spillsBefore;
    FreshIsColored(j, Locations(preg[..], slot[..], spills));
    spills := AllocateRegistersTopDown(ig, j, preg, slot, spills, order, prefer, Int, usePreferences, {});
    ghost var l := Locations(preg[..], slot[..], spills);
    assert {} + ClassMembers(j, Int) == ClassMembers(j, Int);
    ColoredSizes(j, l, ClassMembers(j, Int));
    ColoredIsPrecolored(j, l, ClassMembers(j, Int));
    spills := AllocateRegistersTopDown(ig, j, preg, slot, spills, order, prefer, Sse, usePreferences,
        ClassMembers(j, Int));
    ColoredSizes(j, Locations(preg[..], slot[..], spills), ClassMembers(j, Int) + ClassMembers(j, Sse));
    TopDownStays(j, l.preg, preg[..], order, prefer, usePreferences, Int, {});
    TopDownBlocks(j, preg[..], order, prefer, usePreferences, Int, {});
    TopDownBlocks(j, preg[..], order, prefer, usePreferences, Sse, ClassMembers(j, Int));
    l := Locations(preg[..], slot[..], spills);
    forall a: nat, b: nat | Vreg(j.n, a) && Vreg(j.n, b) && a != b && Has(j.edges, a, b)
      ensures preg[a] == -1 || preg[a] != preg[b]
    {
      InterferingAreApart(j, l, a, b);
    }
    forall v: nat | HasFewNeighbors(j, v) ensures v < preg.Length && InClass(j.context.ClassOf(v), preg[v]) {
      FewNeighborsNotSpilled(j, l, v);
    }
  }

  /** Fewer neighbours than the class of the vreg has registers. */
  ghost predicate HasFewNeighbors(j: Job, v: nat) {
    RESERVED < v <= j.n && j.context.ClassOf(v) != NoClass && Degree(j.n, j.edges, v) < Count(j.context.ClassOf(v))
  }

  // What an allocation guarantees

  /** Two interfering vregs are never in the same register. */
  lemma InterferingAreApart(j: Job, l: Locations, a: nat, b: nat)
    requires Allocated(j, l) && Vreg(j.n, a) && Vreg(j.n, b) && a != b && Has(j.edges, a, b)
    ensures l.preg[a] == -1 || l.preg[a] != l.preg[b]
  {
  }

  /** A vreg that interferes with every register of its class but `reg` is in that register or spilled. */
  lemma ForcedOrSpilled(j: Job, l: Locations, v: nat, reg: nat)
    requires Allocated(j, l) && RESERVED < v <= j.n && j.context.ClassOf(v) != NoClass
    requires forall r | r in ClassRegisters(j.context.ClassOf(v)) && r != reg :: Has(j.edges, v, r)
    ensures l.preg[v] == reg - 1 || Spilled(l, v)
  {
    assert v in ClassMembers(j, Int) + ClassMembers(j, Sse);
    assert Located(j, l, v);
    if l.preg[v] != -1 {
      var r: nat := l.preg[v] + 1;
      assert r in ClassRegisters(j.context.ClassOf(v));
      assert l.preg[r] == l.preg[v];
      if r != reg { InterferingAreApart(j, l, v, r); }
    }
  }

  /** A vreg with fewer neighbours than its class has registers is not spilled. */
  lemma FewNeighborsNotSpilled(j: Job, l: Locations, v: nat)
    requires Allocated(j, l) && HasFewNeighbors(j, v)
    ensures v < |l.preg| && InClass(j.context.ClassOf(v), l.preg[v])
  {
    hide NeighborRegisters, ProperColors, DistinctSpills, NoHoles;
    assert v in ClassMembers(j, Int) + ClassMembers(j, Sse);
    assert Located(j, l, v);
    ColoredRegisters(j, l, ClassMembers(j, Int) + ClassMembers(j, Sse));
    AtMostDegree(j, l.preg, j.context.ClassOf(v), v, j.n);
  }

  // Locations as numbers

  /** Registers, stack indexes and vregs without a location, numbered apart. */
  function RegisterAt(register: nat): nat {
    3 * register + 1
  }

  function StackAt(index: int): nat {
    3 * (if index < 0 then -2 * index else 2 * index + 1) + 2
  }

  function Nowhere(v: nat): nat {
    3 * v + 3
  }

  function Where(l: Locations, v: nat): nat {
    if v == 0 then 0
    else if v < |l.slot| && l.slot[v] != 0 then StackAt(l.slot[v])
    else if v < |l.preg| && l.preg[v] >= 0 then RegisterAt(MachineRegister(l.preg[v]))
    else Nowhere(v)
  }

  function Placing(l: Locations): Placement {
    v => Where(l, v)
  }

  /** Parameters passed on the stack have stack indexes of their own, above those for spills. */
  ghost predicate ParametersApart(j: Job) {
    && (forall v | 0 <= v < |j.original| && j.original[v] != 0 :: j.original[v] >= 2)
    && (forall v, w | 0 <= v < |j.original| && 0 <= w < |j.original| && j.original[v] != 0 ::
          j.original[v] == j.original[w] ==> v == w)
  }

  lemma SpillsApart(j: Job, l: Locations, v: nat, w: nat)
    requires Allocated(j, l) && ParametersApart(j) && 0 < v <= j.n && 0 < w <= j.n && l.slot[v] != 0
      && l.slot[v] == l.slot[w]
    ensures v == w
  {
    hide ProperColors, SpillsBlocked, NoHoles;
    SpillIs(j, l, v);
    SpillIs(j, l, w);
  }

  lemma SpillIs(j: Job, l: Locations, v: nat)
    requires Allocated(j, l) && 0 < v <= j.n && l.slot[v] != 0
    ensures l.preg[v] == -1 && Spilled(l, v) && SpillIndex(j, l, v)
  {
    hide ProperColors, SpillsBlocked, NoHoles;
    assert v > RESERVED;
    if v in ClassMembers(j, Int) + ClassMembers(j, Sse) { assert Located(j, l, v); }
  }

  lemma RegisterInClass(j: Job, l: Locations, v: nat)
    requires Allocated(j, l) && 0 < v <= j.n && l.preg[v] != -1
    ensures InClass(j.context.ClassOf(v), l.preg[v]) && l.slot[v] == 0
  {
    hide ProperColors, SpillsBlocked, NoHoles;
    if v > RESERVED {
      if v in ClassMembers(j, Int) + ClassMembers(j, Sse) { assert Located(j, l, v); }
    }
  }

  /** Two vregs share a location only if it is a register of the class of both. */
  lemma SharedIsRegister(j: Job, l: Locations, v: nat, w: nat)
    requires Allocated(j, l) && ParametersApart(j) && v != 0 && w != 0 && v != w && Where(l, v) == Where(l, w)
    ensures v <= j.n && w <= j.n && l.preg[v] == l.preg[w] != -1 && j.context.ClassOf(v) == j.context.ClassOf(w)
  {
    hide Colored, SpillsBlocked, Draws, MachineRegister;
    ColoredSizes(j, l, ClassMembers(j, Int) + ClassMembers(j, Sse));
    if v < |l.slot| && l.slot[v] != 0 {
      if w < |l.slot| && l.slot[w] != 0 { SpillsApart(j, l, v, w); }
    } else if v < |l.preg| && l.preg[v] >= 0 && w < |l.preg| && l.slot[w] == 0 && l.preg[w] >= 0 {
      MachineRegisterInjective(l.preg[v], l.preg[w]);
      RegisterInClass(j, l, v);
      RegisterInClass(j, l, w);
    }
  }

  lemma PlacingRespects(j: Job, l: Locations)
    requires Allocated(j, l) && ParametersApart(j)
    ensures Proper(Placing(l)) && Respects(Placing(l), j.edges) && KeepsClasses(Placing(l), j.context)
  {
    hide Colored, SpillsBlocked, Where;
    var at := Placing(l);
    assert Proper(at) by { WherePositive(l); }
    forall v: nat, w: nat | (v, w) in j.edges && v != w ensures at(v) != at(w) {
      WherePositive(l);
      if v != 0 && w != 0 && at(v) == at(w) {
        SharedIsRegister(j, l, v, w);
        InterferingAreApart(j, l, v, w);
      }
    }
    forall v: nat, w: nat | v != 0 && w != 0 && at(v) == at(w) ensures j.context.ClassOf(v) == j.context.ClassOf(w) {
      if v != w { SharedIsRegister(j, l, v, w); }
    }
  }

  lemma WherePositive(l: Locations)
    ensures Where(l, 0) == 0 && forall v: nat | v != 0 :: Where(l, v) != 0
  {
  }

  // Rewriting the code

  /** No operand that must be in a register was spilled. */
  ghost predicate NoneOfForcedSpilled(p: Program, c: Context, l: Locations, b: nat, k: nat)
    requires b < |p.code| == |c.demands| && |c.demands[b]| == |p.code[b]| && k <= |p.code[b]|
  {
    forall h | 0 <= h < k :: ForcedUnspilled(p.code[b][h], c.demands[b][h], l)
  }

  predicate ForcedUnspilled(i: Instr, d: Demand, l: Locations) {
    Unspilled(l, i.dst, d.dst) && Unspilled(l, i.src1, d.src1) && Unspilled(l, i.src2, d.src2)
  }

  predicate Unspilled(l: Locations, v: nat, demand: nat) {
    v != 0 && demand != 0 && v < |l.slot| ==> l.slot[v] == 0
  }

  predicate SelfMove(l: Locations, i: Instr) {
    && i.op == XMov && 0 < i.dst < |l.preg| && 0 < i.src1 < |l.preg| && i.dst < |l.slot| && i.src1 < |l.slot|
    && l.slot[i.dst] == 0 && l.slot[i.src1] == 0 && l.preg[i.dst] >= 0 && l.preg[i.dst] == l.preg[i.src1]
  }

  /** The instruction demands a certain register for its operand `v`. */
  predicate Demanding(i: Instr, d: Demand, v: nat) {
    v != 0 && ((v == i.dst && d.dst != 0) || (v == i.src1 && d.src1 != 0) || (v == i.src2 && d.src2 != 0))
  }

  /** No operand for which an instruction demands a register has a stack index. */
  ghost predicate DemandsMet(p: Program, c: Context, l: Locations)
    requires |p.code| == |c.demands| && forall b | 0 <= b < |p.code| :: |c.demands[b]| == |p.code[b]|
  {
    forall b: nat, k: nat, v: nat | b < |p.code| && k < |p.code[b]| && Demanding(p.code[b][k], c.demands[b][k], v) ::
      v >= |l.slot| || l.slot[v] == 0
  }

  lemma DemandsMetIs(p: Program, c: Context, out: seq<set<nat>>, l: Locations)
    requires Fits(p, c, out)
    ensures DemandsMet(p, c, l) <==> forall b | 0 <= b < |p.code| :: NoneOfForcedSpilled(p, c, l, b, |p.code[b]|)
  {
    if DemandsMet(p, c, l) {
      forall b: nat, k: nat | b < |p.code| && k < |p.code[b]|
        ensures ForcedUnspilled(p.code[b][k], c.demands[b][k], l)
      {
        var i, d := p.code[b][k], c.demands[b][k];
        assert d.dst != 0 && i.dst != 0 ==> Demanding(i, d, i.dst);
        assert d.src1 != 0 && i.src1 != 0 ==> Demanding(i, d, i.src1);
        assert d.src2 != 0 && i.src2 != 0 ==> Demanding(i, d, i.src2);
      }
    } else {
      var b: nat, k: nat, v: nat :| b < |p.code| && k < |p.code[b]| && Demanding(p.code[b][k], c.demands[b][k], v)
        && v < |l.slot| && l.slot[v] != 0;
      assert !ForcedUnspilled(p.code[b][k], c.demands[b][k], l);
      assert !NoneOfForcedSpilled(p, c, l, b, |p.code[b]|);
    }
  }

  /** Both vregs are in one machine register. */
  ghost predicate InOneRegister(l: Locations, v: nat, w: nat) {
    exists m: nat :: Where(l, v) == RegisterAt(m) && Where(l, w) == RegisterAt(m)
  }

  /** What becomes of an instruction: a register move within one register is dropped, and otherwise locations take the
      place of vregs. */
  ghost function Assigned(l: Locations, i: Instr): Instr {
    if i.op == XMov && InOneRegister(l, i.dst, i.src1) then Instr(Nop, 0, 0, 0, i.imm)
    else Instr(i.op, Where(l, i.dst), Where(l, i.src1), Where(l, i.src2), i.imm)
  }

  lemma SelfMoveIs(l: Locations, i: Instr)
    requires |l.preg| == |l.slot|
    ensures SelfMove(l, i) <==> i.op == XMov && InOneRegister(l, i.dst, i.src1)
  {
    if SelfMove(l, i) {
      assert Where(l, i.dst) == RegisterAt(MachineRegister(l.preg[i.dst]));
      assert Where(l, i.src1) == RegisterAt(MachineRegister(l.preg[i.src1]));
    }
    if m: nat :| Where(l, i.dst) == RegisterAt(m) && Where(l, i.src1) == RegisterAt(m) {
      InRegister(l, i.dst, m);
      InRegister(l, i.src1, m);
      MachineRegisterInjective(l.preg[i.dst], l.preg[i.src1]);
    }
  }

  lemma InRegister(l: Locations, v: nat, m: nat)
    requires |l.preg| == |l.slot| && Where(l, v) == RegisterAt(m)
    ensures 0 < v < |l.preg| && l.slot[v] == 0 && l.preg[v] >= 0 && MachineRegister(l.preg[v]) == m
  {
    hide MachineRegister;
  }

  /** Put locations in place of vregs; give up if an operand that needs a register was spilled. */
  method AssignVregLocations(p: Program, c: Context, out: seq<set<nat>>, l: Locations) returns (ok: bool, q: Program)
    requires Fits(p, c, out) && p.Valid() && |l.preg| == |l.slot|
    ensures ok <==> forall b | 0 <= b < |p.code| :: NoneOfForcedSpilled(p, c, l, b, |p.code[b]|)
    ensures ok <==> DemandsMet(p, c, l)
    ensures q.Valid() && Rewritten(p, q, Placing(l))
    ensures forall b: nat, k: nat | b < |p.code| && k < |p.code[b]| :: q.code[b][k] == Assigned(l, p.code[b][k])
  {
    hide Cfg.Valid, Where, Unspilled, DemandsMet;
    DemandsMetIs(p, c, out, l);
    ok := true;
    var code: seq<seq<Instr>> := [];
    for b := 0 to |p.code|
      invariant |code| == b
      invariant ok <==> forall a | 0 <= a < b :: NoneOfForcedSpilled(p, c, l, a, |p.code[a]|)
      invariant forall a: nat | a < b :: |code[a]| == |p.code[a]| && forall k: nat | k < |code[a]| ::
                Becomes(Placing(l), p.code[a][k], code[a][k]) && code[a][k] == Assigned(l, p.code[a][k])
    {
      var fine, block := AssignBlock(p, c, out, l, b);
      ok := ok && fine;
      code := code + [block];
    }
    q := Program(code, p.g);
  }

  method AssignBlock(p: Program, c: Context, out: seq<set<nat>>, l: Locations, b: nat) returns (fine: bool,
                     block: seq<Instr>)
    requires Fits(p, c, out) && b < |p.code| && |l.preg| == |l.slot|
    ensures fine <==> NoneOfForcedSpilled(p, c, l, b, |p.code[b]|)
    ensures |block| == |p.code[b]| && forall k: nat | k < |block| ::
              Becomes(Placing(l), p.code[b][k], block[k]) && block[k] == Assigned(l, p.code[b][k])
  {
    hide Where, ForcedUnspilled, SelfMove, InOneRegister;
    fine, block := true, [];
    for k := 0 to |p.code[b]|
      invariant fine <==> NoneOfForcedSpilled(p, c, l, b, k)
      invariant |block| == k && forall h: nat | h < k ::
                  Becomes(Placing(l), p.code[b][h], block[h]) && block[h] == Assigned(l, p.code[b][h])
    {
      var i := p.code[b][k];
      fine := fine && ForcedUnspilled(i, c.demands[b][k], l);
      var x := Placed(Placing(l), i);
      SelfMoveIs(l, i);
      if SelfMove(l, i) {
        SelfMoveStays(l, i);
        x := Instr(Nop, 0, 0, 0, i.imm);
      }
      block := block + [x];
    }
  }

  lemma SelfMoveStays(l: Locations, i: Instr)
    requires SelfMove(l, i)
    ensures Where(l, i.dst) == Where(l, i.src1) && IsCopy(i)
  {
  }

  // The machine, in its own register numbers (wcc.h:594-618): rax 0, rcx 2, rdx 3, rsi 4, rdi 5, rbp 6, rsp 7, r8 to
  // r15 8 to 15, xmm0 to xmm15 16 to 31

  predicate Inside(p: Program, c: Context, b: nat, k: nat) {
    b < |p.code| && k < |p.code[b]| && b < |c.demands| && k < |c.demands[b]|
  }

  predicate IsCall(i: Instr) {
    i.op == XCall || i.op == Call
  }

  /** Registers that an instruction works in besides those of its operands: rax and rdx for a division, rcx for a shift,
      rdx for the comparison of long doubles. */
  function Scratch(prev: Instr, i: Instr): set<nat> {
    match i.op
    case Divide => {0, 3}
    case XIdiv => {0, 3}
    case ShiftLeft => {2}
    case ShiftRight => {2}
    case XShr => if prev.dst != 0 && prev.src1 != 0 then {2} else {}
    case XLdEqCmp => {3}
    case _ => {}
  }

  /** Registers that a called function need not preserve, save those it returns something in: rax, rcx, rdx, rsi,
      rdi, r8
      to r11 and all of xmm. */
  function CallScratch(results: set<nat>): set<nat> {
    set m: nat | m < 32 && MayChangeInCall(results, m)
  }

  predicate MayChangeInCall(results: set<nat>, m: nat) {
    || m == 2 || m == 4 || m == 5 || 8 <= m <= 11 || 18 <= m <= 31
    || (m == 0 && RAX !in results) || (m == 3 && RDX !in results)
    || (m == 16 && XMM00 !in results) || (m == 17 && XMM00 + 1 !in results)
  }

  function Registers(numbers: set<nat>): set<nat> {
    set m | m in numbers :: RegisterAt(m)
  }

  /** What instruction `k` of block `b` destroys: the registers it works in, those that the function called does not
      preserve, and rax before a call through a register. */
  function Hardware(p: Program, c: Context, junk: (History, nat) -> int): Machine {
    Machine(
      (b: nat, k: nat) =>
        if Inside(p, c, b, k) && IsCall(p.code[b][k]) && p.code[b][k].src1 != 0 then Registers({0}) else {},
      (b: nat, k: nat) => if Inside(p, c, b, k) then Registers(Scratch(Previous(p, b, k), p.code[b][k])) else {},
      (b: nat, k: nat) =>
        if Inside(p, c, b, k) && IsCall(p.code[b][k]) then Registers(CallScratch(c.demands[b][k].results)) else {},
      junk)
  }

  /** The reserved vregs are in the registers they stand for. */
  lemma ReservedPlaces(j: Job, l: Locations, r: nat)
    requires Allocated(j, l) && 0 < r <= RESERVED
    ensures Where(l, r) == RegisterAt(MachineRegister(r - 1))
  {
    hide ProperColors, DistinctSpills, SpillsBlocked, NoHoles, Located;
  }

  /** No vreg is ever in rbp, rsp, r10, r11, xmm14 or xmm15. */
  lemma NeverGivenOut(j: Job, l: Locations, v: nat, m: nat)
    requires Allocated(j, l) && m in {6, 7, 10, 11, 30, 31}
    ensures Where(l, v) != RegisterAt(m)
  {
    ColoredRegisters(j, l, ClassMembers(j, Int) + ClassMembers(j, Sse));
    hide Colored, SpillsBlocked;
  }

  /** The registers that a call is said to destroy here are those it is drawn with in the graph, and those that are
      never given out. */
  lemma CallScratchExactly(results: set<nat>, r: nat)
    requires 0 < r <= RESERVED
    ensures r in CallClobbers(results) <==> MachineRegister(r - 1) in CallScratch(results)
    ensures {10, 11, 30, 31} <= CallScratch(results)
  {
    CallClobbersMean(results, r);
    hide CallClobbers;
  }

  /** And so it is with the registers that an instruction works in. */
  lemma ScratchExactly(c: Context, prev: Instr, i: Instr, r: nat)
    requires c.clobbers && 0 < r <= RESERVED
    ensures r in Excluded(c, prev, i) <==> MachineRegister(r - 1) in Scratch(prev, i)
    ensures ClobbersAtCall(c, i) <==> IsCall(i)
  {
    ExcludedMeans(c, prev, i, r);
    hide Excluded;
  }

  lemma CallScratchIs(results: set<nat>, m: nat)
    requires m in CallScratch(results) && m !in {10, 11, 30, 31}
    ensures exists r: nat :: r in CallClobbers(results) && 0 < r <= RESERVED && MachineRegister(r - 1) == m
  {
    var r := if m < 8 then m + 1 else if m < 10 then m - 1 else m - 3;
    CallScratchExactly(results, r);
    hide CallClobbers;
    assert r in CallClobbers(results) && 0 < r <= RESERVED && MachineRegister(r - 1) == m;
  }

  lemma ScratchIs(c: Context, prev: Instr, i: Instr, m: nat)
    requires m in Scratch(prev, i) && c.clobbers
    ensures m + 1 in Excluded(c, prev, i) && m < 6
  {
    ScratchExactly(c, prev, i, m + 1);
    hide Excluded;
  }

  lemma ProductRespected(at: Placement, edges: set<Edge>, regs: set<nat>, s: set<nat>, v: nat, r: nat)
    requires Respects(at, edges) && Product(regs, s) <= edges && v in s && r in regs && v != r
    ensures at(v) != at(r)
  {
    assert (r, v) in Product(regs, s);
  }

  /** A vreg with an edge to the vreg for a register is not in that register. */
  lemma OutOfRegister(j: Job, l: Locations, regs: set<nat>, s: set<nat>, v: nat, r: nat)
    requires Allocated(j, l) && ParametersApart(j) && Product(regs, s) <= j.edges && v in s && r in regs
    requires v > RESERVED >= r > 0
    ensures Where(l, v) != RegisterAt(MachineRegister(r - 1))
  {
    hide Allocated, Where, Product, Respects;
    PlacingRespects(j, l);
    ReservedPlaces(j, l, r);
    ProductRespected(Placing(l), j.edges, regs, s, v, r);
  }

  lemma ClobbersDrawn(p: Program, c: Context, out: seq<set<nat>>, b: nat, k: nat)
    requires c.clobbers && Fits(p, c, out) && b < |p.code| && k < |p.code[b]|
    ensures var i, after := p.code[b][k], LiveAt(p, out, b, k + 1);
      && Product(Excluded(c, Previous(p, b, k), i), after + Mentioned(i)) <= AllEdges(p, c, out)
      && (IsCall(i) ==> Product(CallClobbers(c.demands[b][k].results), after) <= AllEdges(p, c, out))
      && (IsCall(i) && i.src1 != 0 ==> (RAX, i.src1) in AllEdges(p, c, out))
  {
    hide LiveAt, AllEdges, Product, ResultEdges, SelectionEdges, ForcedEdges, Excluded, CallClobbers;
    EdgeOfProgram(p, c, out, b, k);
  }

  /** Nothing around an instruction is in a register it works in. */
  lemma OutOfScratch(p: Program, c: Context, out: seq<set<nat>>, j: Job, l: Locations, b: nat, k: nat)
    requires c.clobbers && Fits(p, c, out) && Unreserved(p, out) && j.edges == AllEdges(p, c, out)
    requires Allocated(j, l) && ParametersApart(j) && b < |p.code| && k < |p.code[b]|
    ensures var i := p.code[b][k];
      forall v | v in LiveAt(p, out, b, k + 1) + Mentioned(i) ::
        Where(l, v) !in Registers(Scratch(Previous(p, b, k), i))
  {
    hide Allocated, Where, LiveAt, AllEdges, Product, Excluded, Previous, RegisterAt, MachineRegister, Scratch;
    ClobbersDrawn(p, c, out, b, k);
    LiveUnreserved(p, out, b, k + 1);
    var i, prev, s := p.code[b][k], Previous(p, b, k), LiveAt(p, out, b, k + 1) + Mentioned(p.code[b][k]);
    assert AllAbove(Mentioned(i));
    forall v, m | v in s && m in Scratch(prev, i) ensures Where(l, v) != RegisterAt(m) {
      ScratchIs(c, prev, i, m);
      OutOfRegister(j, l, Excluded(c, prev, i), s, v, m + 1);
      LowImage(m);
    }
  }

  lemma LowImage(m: nat)
    requires m < 6
    ensures MachineRegister(m) == m
  {
  }

  /** Nothing live after a call is in a register that the function called may use. */
  lemma OutOfCallScratch(p: Program, c: Context, out: seq<set<nat>>, j: Job, l: Locations, b: nat, k: nat)
    requires c.clobbers && Fits(p, c, out) && Unreserved(p, out) && j.edges == AllEdges(p, c, out)
    requires Allocated(j, l) && ParametersApart(j) && b < |p.code| && k < |p.code[b]| && IsCall(p.code[b][k])
    ensures forall v | v in LiveAt(p, out, b, k + 1) ::
              Where(l, v) !in Registers(CallScratch(c.demands[b][k].results))
  {
    hide Allocated, Where, LiveAt, AllEdges, Product, CallClobbers, RegisterAt, MachineRegister, CallScratch, IsCall;
    ClobbersDrawn(p, c, out, b, k);
    LiveUnreserved(p, out, b, k + 1);
    var results, after := c.demands[b][k].results, LiveAt(p, out, b, k + 1);
    forall v, m | v in after && m in CallScratch(results) ensures Where(l, v) != RegisterAt(m) {
      if m in {10, 11, 30, 31} {
        NeverGivenOut(j, l, v, m);
      } else {
        CallScratchIs(results, m);
        var r: nat :| r in CallClobbers(results) && 0 < r <= RESERVED && MachineRegister(r - 1) == m;
        OutOfRegister(j, l, CallClobbers(results), after, v, r);
      }
    }
  }

  /** The function value of a call is not in rax. */
  lemma FunctionNotInRax(p: Program, c: Context, out: seq<set<nat>>, j: Job, l: Locations, b: nat, k: nat)
    requires c.clobbers && Fits(p, c, out) && Unreserved(p, out) && j.edges == AllEdges(p, c, out)
    requires Allocated(j, l) && ParametersApart(j) && b < |p.code| && k < |p.code[b]|
    requires IsCall(p.code[b][k]) && p.code[b][k].src1 != 0
    ensures Where(l, p.code[b][k].src1) != RegisterAt(0)
  {
    hide Allocated, Where, LiveAt, AllEdges, Product, Excluded, CallClobbers, Previous, IsCall;
    ClobbersDrawn(p, c, out, b, k);
    PlacingRespects(j, l);
    ReservedPlaces(j, l, RAX);
    assert AllAbove(Mentioned(p.code[b][k])) && p.code[b][k].src1 in Mentioned(p.code[b][k]);
    assert Placing(l)(RAX) != Placing(l)(p.code[b][k].src1);
  }

  /** No operand and nothing live is in a register the instruction destroys. */
  lemma InstructionSafe(p: Program, c: Context, out: seq<set<nat>>, j: Job, l: Locations, junk: (History, nat) -> int,
                        b: nat, k: nat)
    requires c.clobbers && Fits(p, c, out) && Unreserved(p, out) && j.edges == AllEdges(p, c, out)
    requires Allocated(j, l) && ParametersApart(j) && b < |p.code| && k < |p.code[b]|
    ensures var m := Hardware(p, c, junk);
      Safe(Placing(l), p.code[b][k], LiveAt(p, out, b, k + 1), m.setup(b, k), m.early(b, k), m.late(b, k))
  {
    hide Allocated, Where, LiveAt, AllEdges, Registers, Scratch, CallScratch, Safe, Previous;
    var i, after := p.code[b][k], LiveAt(p, out, b, k + 1);
    OutOfScratch(p, c, out, j, l, b, k);
    NeverZero(Scratch(Previous(p, b, k), i));
    NeverZero(CallScratch(c.demands[b][k].results));
    NeverZero({0});
    if IsCall(i) {
      OutOfCallScratch(p, c, out, j, l, b, k);
      if i.src1 != 0 { FunctionNotInRax(p, c, out, j, l, b, k); }
      OnlyRax(Where(l, i.src1));
    }
    var m := Hardware(p, c, junk);
    SafeFromImages(l, i, after, m.setup(b, k), m.early(b, k), m.late(b, k));
  }

  lemma NeverZero(numbers: set<nat>)
    ensures 0 !in Registers(numbers)
  {
  }

  lemma OnlyRax(x: nat)
    ensures x in Registers({0}) ==> x == RegisterAt(0)
  {
  }

  lemma SafeFromImages(l: Locations, i: Instr, after: set<nat>, setup: set<nat>, early: set<nat>, late: set<nat>)
    requires 0 !in setup && 0 !in early && 0 !in late && (late != {} ==> !IsCopy(i)) && Where(l, i.src1) !in setup
    requires forall v | v in after + Mentioned(i) :: Where(l, v) !in early
    requires forall v | v in after :: Where(l, v) !in late
    ensures Safe(Placing(l), i, after, setup, early, late)
  {
    WherePositive(l);
    hide Where;
  }

  /** The allocated program is a plan for the old one on the machine. */
  lemma AllocationIsPlan(p: Program, q: Program, c: Context, out: seq<set<nat>>, j: Job, l: Locations,
                         junk: (History, nat) -> int)
    requires c.clobbers && p.Valid() && q.Valid() && Fits(p, c, out) && Covers(p, out) && Unreserved(p, out)
      && ConvertsGuarded(p, c, out)
    requires j.edges == AllEdges(p, c, out) && j.context == c && Allocated(j, l) && ParametersApart(j)
      && Rewritten(p, q, Placing(l))
    ensures Plan(p, q, out, Placing(l), Hardware(p, c, junk))
  {
    hide Cfg.Valid, Allocated, Where, LiveAt, AllEdges, Covers, Safe, Becomes, ConvertsGuarded, Respects;
    PlacingRespects(j, l);
    forall b | 0 <= b < |out| ensures 0 !in out[b] { assert AllAbove(out[b]); }
    GraphSeparates(p, c, out, Placing(l));
    forall b: nat, k: nat | b < |p.code| && k < |p.code[b]|
      ensures var m := Hardware(p, c, junk);
        Safe(Placing(l), p.code[b][k], LiveAt(p, out, b, k + 1), m.setup(b, k), m.early(b, k), m.late(b, k))
    {
      InstructionSafe(p, c, out, j, l, junk, b, k);
    }
  }

  /** The program on registers and stack slots runs in step with the program on vregs, every live vreg has what
      counts of its value in its location at every step, whatever calls, divisions and shifts leave behind in the
      registers they destroy, provided nothing is live into block 0. */
  lemma AllocationPreservesMeaning(w: Width, p: Program, q: Program, c: Context, out: seq<set<nat>>, j: Job,
                                   l: Locations,
                                   sem: Semantics, junk: (History, nat) -> int, env: Env, env': Env, n: nat)
    requires c.clobbers && p.Valid() && q.Valid() && Fits(p, c, out) && Covers(p, out) && Unreserved(p, out)
      && ConvertsGuarded(p, c, out)
    requires j.edges == AllEdges(p, c, out) && j.context == c && Allocated(j, l) && ParametersApart(j)
      && Rewritten(p, q, Placing(l))
    requires |p.code| > 0 && LiveAt(p, out, 0, 0) == {} && Suits(sem, w, p, out, Placing(l))
    ensures Matches(w, p, out, Placing(l), Run(p, sem, env, n), RunOn(q, sem, Hardware(p, c, junk), env', n))
  {
    hide Suits, Matches;
    hide Cfg.Valid, Allocated, Where, AllEdges, Covers, Plan, ConvertsGuarded, Rewritten, Unreserved, Hardware;
    AllocationIsPlan(p, q, c, out, j, l, junk);
    RunsMatch(w, p, q, out, Placing(l), sem, Hardware(p, c, junk), env, env', n);
  }

  /** When the rewriting does not give up, an operand that must be in a register is in that register. */
  lemma ForcedInRegister(p: Program, c: Context, out: seq<set<nat>>, j: Job, l: Locations, b: nat, k: nat, v: nat,
                         reg: nat)
    requires Fits(p, c, out) && j.edges == AllEdges(p, c, out) && j.context == c && Allocated(j, l)
    requires b < |p.code| && k < |p.code[b]| && NoneOfForcedSpilled(p, c, l, b, |p.code[b]|)
    requires RESERVED < v <= j.n && 0 < reg <= RESERVED && c.ClassOf(v) != NoClass
    requires var i, d := p.code[b][k], c.demands[b][k];
      (v == i.dst && reg == d.dst) || (v == i.src1 && reg == d.src1) || (v == i.src2 && reg == d.src2)
    ensures l.preg[v] == reg - 1 && l.slot[v] == 0 && Where(l, v) == RegisterAt(MachineRegister(reg - 1))
  {
    hide Draws, LiveAt, AllEdges, CallEdges, ExcludedEdges, ResultEdges, SelectionEdges, SpillsBlocked;
    hide ProperColors, DistinctSpills, NoHoles;
    var i, d, after := p.code[b][k], c.demands[b][k], LiveAt(p, out, b, k + 1);
    EdgeOfProgram(p, c, out, b, k);
    assert ForcedUnspilled(i, d, l);
    assert Forced(c, v, reg, after) <= ForcedEdges(c, i, d, after);
    ForcedHasEdges(c, v, reg, after, j.edges);
    ForcedOrSpilled(j, l, v, reg);
  }

  lemma ForcedHasEdges(c: Context, v: nat, reg: nat, after: set<nat>, edges: set<Edge>)
    requires v != 0 && reg != 0 && c.ClassOf(v) != NoClass && Forced(c, v, reg, after) <= edges
    ensures forall r | r in ClassRegisters(c.ClassOf(v)) && r != reg :: Has(edges, v, r)
  {
    hide ClassRegisters;
    forall r | r in ClassRegisters(c.ClassOf(v)) && r != reg ensures Has(edges, v, r) {
      assert (v, r) in Star(v, ClassRegisters(c.ClassOf(v)) - {reg});
    }
  }

  lemma AllocatedSizes(j: Job, l: Locations)
    requires Allocated(j, l)
    ensures |l.preg| == |l.slot| == j.n + 1
  {
  }

  /** The whole pass: the graph, the locations, and the code in terms of them. */
  method AllocateProgram(p: Program, c: Context, out: seq<set<nat>>, n: nat, original: seq<int>, spillsBefore: nat,
                         order: seq<nat>, prefer: seq<nat>, usePreferences: bool, ghost junk: (History, nat) -> int)
    returns (ok: bool, q: Program, l: Locations)
    requires p.Valid() && Fits(p, c, out) && Interference.Numbered(p, c, out, n) && |original| == n + 1
    requires Covers(p, out) && Unreserved(p, out)
    requires ParametersApart(Job(n, AllEdges(p, c, out), c, original, spillsBefore))
    requires IsOrder(n, order) && PrefersOwnClass(Job(n, AllEdges(p, c, out), c, original, spillsBefore), prefer)
    ensures Allocated(Job(n, AllEdges(p, c, out), c, original, spillsBefore), l)
    ensures ok ==> q.Valid() && Rewritten(p, q, Placing(l))
    ensures ok ==> forall b: nat, k: nat | b < |p.code| && k < |p.code[b]| :: q.code[b][k] == Assigned(l, p.code[b][k])
    ensures ok && c.clobbers && ConvertsGuarded(p, c, out) ==> Plan(p, q, out, Placing(l), Hardware(p, c, junk))
    ensures ok <==> DemandsMet(p, c, l)
    ensures var j := Job(n, AllEdges(p, c, out), c, original, spillsBefore);
      && |l.preg| == n + 1 && TopDown(j, l.preg, order, prefer, usePreferences, Int, {})
      && TopDown(j, l.preg, order, prefer, usePreferences, Sse, ClassMembers(j, Int))
  {
    hide TopDown, DemandsMet, Assigned, SpillsBlocked, Colored;
    hide Cfg.Valid, Draws, Allocated, Covers, Unreserved, ConvertsGuarded, Plan, NoneOfForcedSpilled, AllEdges;
    var ig := MakeInterferenceGraph(p, c, out, n);
    var j := Job(n, AllEdges(p, c, out), c, original, spillsBefore);
    var preg, slot, spills := AllocateRegisters(ig, j, order, prefer, usePreferences);
    var locations := Locations(preg[..], slot[..], spills);
    l := locations;
    assert |l.preg| == |l.slot| by { AllocatedSizes(j, l); }
    ok, q := AssignVregLocations(p, c, out, locations);
    if ok && c.clobbers && ConvertsGuarded(p, c, out) { AllocationIsPlan(p, q, c, out, j, l, junk); }
  }
}
