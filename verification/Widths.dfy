/** Instructions read registers at the width of their operands. */
module Widths {
  import opened Ir

  /** `view` is the part of a vreg that counts: the low bits, for a vreg of a narrow type. `first` and `second` are
      what an instruction reads of its operands; its immediate part says at which width. */
  datatype Width = Width(view: (nat, int) -> int, first: (Op, int, int) -> int, second: (Op, int, int) -> int)

  /** Everything counts. */
  function Whole(): Width {
    Width((v, x) => x, (op, imm, x) => x, (op, imm, x) => x)
  }

  function SeenEvent(w: Width, e: Event): Event {
    Event(e.op, e.imm, w.first(e.op, e.imm, e.a), w.second(e.op, e.imm, e.b))
  }

  /** The history with operands as they were read. */
  function Seen(w: Width, h: History): (r: History)
    ensures |r| == |h|
  {
    if h == [] then [] else Seen(w, h[..|h| - 1]) + [SeenEvent(w, h[|h| - 1])]
  }

  lemma SeenNext(w: Width, h: History, e: Event)
    ensures Seen(w, h + [e]) == Seen(w, h) + [SeenEvent(w, e)]
  {
    assert (h + [e])[..|h|] == h;
  }

  lemma {:induction false} SeenWhole(h: History)
    ensures Seen(Whole(), h) == h
  {
    if h != [] { SeenWhole(h[..|h| - 1]); }
  }

  ghost predicate SameEval(sem: Semantics, w: Width, op: Op, imm: int, h: History, a: int, b: int, g: History,
      x: int, y: int) {
    Seen(w, h) == Seen(w, g) && w.first(op, imm, a) == w.first(op, imm, x) &&
        w.second(op, imm, b) == w.second(op, imm, y) ==>
      sem.eval(h, op, imm, a, b) == sem.eval(g, op, imm, x, y)
  }

  ghost predicate SameBranch(sem: Semantics, w: Width, b: nat, h: History, g: History) {
    Seen(w, h) == Seen(w, g) ==> sem.branch(h, b) == sem.branch(g, b)
  }

  /** Results and branches depend only on what is read. */
  ghost predicate ReadsAtWidth(sem: Semantics, w: Width) {
    && (forall op, imm, h, a, b, g, x, y :: SameEval(sem, w, op, imm, h, a, b, g, x, y))
    && (forall b, h, g :: SameBranch(sem, w, b, h, g))
  }

  /** The instruction reads no more of its operands than counts, and what counts of the result of a copy counts of
      its source. */
  ghost predicate WidthFits(w: Width, i: Instr) {
    && (i.src1 != 0 ==> forall x, y | w.view(i.src1, x) == w.view(i.src1, y) ::
        w.first(i.op, i.imm, x) == w.first(i.op, i.imm, y))
    && (i.src2 != 0 ==> forall x, y | w.view(i.src2, x) == w.view(i.src2, y) ::
        w.second(i.op, i.imm, x) == w.second(i.op, i.imm, y))
    && (IsCopy(i) && i.dst != 0 ==> forall x, y | w.view(i.src1, x) == w.view(i.src1, y) ::
        w.view(i.dst, x) == w.view(i.dst, y))
  }

  ghost predicate AllFit(w: Width, p: Program) {
    forall b, k | 0 <= b < |p.code| && 0 <= k < |p.code[b]| :: WidthFits(w, p.code[b][k])
  }

  /** The result of an extending move has in it what counts of its source. */
  ghost predicate KeepsLow(sem: Semantics, w: Width, i: Instr) {
    forall h, a, b :: w.view(i.src1, sem.eval(h, i.op, i.imm, a, b)) == w.view(i.src1, a)
  }

  /** What is read of the operands is the same. */
  ghost predicate SameOperands(w: Width, i: Instr, a: int, b: int, x: int, y: int) {
    && (if i.src1 == 0 then a == x else w.view(i.src1, a) == w.view(i.src1, x))
    && (if i.src2 == 0 then b == y else w.view(i.src2, b) == w.view(i.src2, y))
  }

  lemma SameValue(sem: Semantics, w: Width, i: Instr, h: History, a: int, b: int, g: History, x: int, y: int)
    requires ReadsAtWidth(sem, w) && WidthFits(w, i) && Seen(w, h) == Seen(w, g) && SameOperands(w, i, a, b, x, y)
    ensures if IsCopy(i) then Value(sem, h, i, a, b) == a && Value(sem, g, i, x, y) == x
            else Value(sem, h, i, a, b) == Value(sem, g, i, x, y)
  {
    hide Seen;
    assert SameEval(sem, w, i.op, i.imm, h, a, b, g, x, y);
  }

  lemma SameLog(w: Width, i: Instr, h: History, a: int, b: int, g: History, x: int, y: int)
    requires WidthFits(w, i) && Seen(w, h) == Seen(w, g) && SameOperands(w, i, a, b, x, y)
    ensures Seen(w, Log(h, i, a, b)) == Seen(w, Log(g, i, x, y))
  {
    hide Seen;
    SeenNext(w, h, Event(i.op, i.imm, a, b));
    SeenNext(w, g, Event(i.op, i.imm, x, y));
  }

  lemma WholeReads(sem: Semantics)
    ensures ReadsAtWidth(sem, Whole())
  {
    forall op, imm, h, a, b, g, x, y
      ensures SameEval(sem, Whole(), op, imm, h, a, b, g, x, y)
    {
      SeenWhole(h); SeenWhole(g);
    }
    forall b, h, g ensures SameBranch(sem, Whole(), b, h, g) { SeenWhole(h); SeenWhole(g); }
  }

  lemma WholeFits(p: Program)
    ensures AllFit(Whole(), p)
  {
  }
}
