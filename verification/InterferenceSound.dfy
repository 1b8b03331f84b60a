/** Locations that respect the interference graph keep the meaning of a program. */
module InterferenceSound {
  import opened Cfgs
  import opened Ir
  import opened EdgeMatrix
  import opened Separation
  import opened Interference
  import opened EdgeMeaning

  /** Reserved vregs do not occur in the code. */
  ghost predicate Unreserved(p: Program, out: seq<set<nat>>) {
    && (forall b | 0 <= b < |out| :: AllAbove(out[b]))
    && (forall b, k | 0 <= b < |p.code| && 0 <= k < |p.code[b]| :: AllAbove(Mentioned(p.code[b][k])))
  }

  ghost predicate AllAbove(s: set<nat>) {
    forall v | v in s :: v > RESERVED
  }

  lemma {:induction false} LiveUnreserved(p: Program, out: seq<set<nat>>, b: nat, k: nat)
    requires |out| == |p.code| && Unreserved(p, out) && b < |p.code| && k <= |p.code[b]|
    ensures AllAbove(LiveAt(p, out, b, k))
    decreases |p.code[b]| - k
  {
    if k < |p.code[b]| {
      LiveUnreserved(p, out, b, k + 1);
      assert AllAbove(Mentioned(p.code[b][k]));
    }
  }

  /** The ends of an edge get different locations. */
  ghost predicate Respects(at: Placement, edges: set<Edge>) {
    forall a: nat, b: nat | (a, b) in edges && a != b :: at(a) != at(b)
  }

  /** Vregs of different classes get different locations. */
  ghost predicate KeepsClasses(at: Placement, c: Context) {
    forall v: nat, w: nat | v != 0 && w != 0 && at(v) == at(w) :: c.ClassOf(v) == c.ClassOf(w)
  }

  /** A move that changes the value. */
  predicate Converts(i: Instr) {
    i.op == Convert || i.op == Cast
  }

  /** A converting move whose source is used later. The graph makes an exception for its source as if it were a copy. */
  ghost predicate ConvertKeepsSource(p: Program, c: Context, out: seq<set<nat>>, b: nat, k: nat)
    requires Fits(p, c, out) && b < |p.code| && k < |p.code[b]|
  {
    var i := p.code[b][k];
    && Converts(i) && i.dst != 0 && i.src1 != 0 && i.src1 != i.dst && c.ClassOf(i.dst) == c.ClassOf(i.src1)
    && i.src1 in LiveAt(p, out, b, k + 1)
  }

  /** And no instruction keeps it apart from the result: none defines one of them while the other is live, subtracts one
      from the other, or has both among its operands where instruction selection wants these distinct. */
  ghost predicate LosesSource(p: Program, c: Context, out: seq<set<nat>>, b: nat, k: nat)
    requires Fits(p, c, out) && b < |p.code| && k < |p.code[b]|
  {
    ConvertKeepsSource(p, c, out, b, k) && !KeptApart(p, c, out, p.code[b][k].dst, p.code[b][k].src1)
  }

  ghost predicate ConvertsGuarded(p: Program, c: Context, out: seq<set<nat>>)
    requires Fits(p, c, out)
  {
    forall b: nat, k: nat | b < |p.code| && k < |p.code[b]| :: !LosesSource(p, c, out, b, k)
  }

  /** Whatever is live after an instruction and shares the location of its result is the source of a move. */
  lemma RivalIsApart(p: Program, c: Context, out: seq<set<nat>>, at: Placement, b: nat, k: nat, v: nat)
    requires Fits(p, c, out) && Proper(at) && Respects(at, AllEdges(p, c, out)) && KeepsClasses(at, c)
    requires b < |p.code| && k < |p.code[b]| && v != 0 && v in LiveAt(p, out, b, k + 1)
    requires var i := p.code[b][k]; i.dst != 0 && v != i.dst && at(v) == at(i.dst)
    ensures IsMove(p.code[b][k]) && p.code[b][k].src1 == v
  {
    hide LiveAt, AllEdges, ForcedEdges, CallEdges, ExcludedEdges, SelectionEdges;
    var i, after := p.code[b][k], LiveAt(p, out, b, k + 1);
    EdgeOfProgram(p, c, out, b, k);
    assert v in Rivals(c, i, after) ==> (i.dst, v) in Star(i.dst, Rivals(c, i, after));
    var edges := AllEdges(p, c, out);
    assert v in Rivals(c, i, after) ==> (i.dst, v) in edges;
  }

  /** A placement that respects the graph and the classes keeps the result of every instruction apart from what is live
      after it, save for a converting move that loses its source. */
  lemma InstructionSeparates(p: Program, c: Context, out: seq<set<nat>>, at: Placement, b: nat, k: nat)
    requires Fits(p, c, out) && Proper(at) && Respects(at, AllEdges(p, c, out)) && KeepsClasses(at, c)
    requires b < |p.code| && k < |p.code[b]| && forall d | 0 <= d < |out| :: 0 !in out[d]
    ensures Apart(at, p.code[b][k], LiveAt(p, out, b, k + 1)) || LosesSource(p, c, out, b, k)
  {
    hide LiveAt, AllEdges, KeptApart, KeepsClasses;
    var i, after := p.code[b][k], LiveAt(p, out, b, k + 1);
    LiveAtPositive(p, out, b, k + 1);
    if i.dst != 0 && !LosesSource(p, c, out, b, k) {
      forall v | v in after && v != i.dst && at(v) == at(i.dst) ensures (IsCopy(i) || i.op == Extend) && v == i.src1 {
        RivalIsApart(p, c, out, at, b, k, v);
        EdgesMean(p, c, out, i.dst, i.src1);
        assert c.ClassOf(i.dst) == c.ClassOf(v) by { SameClass(at, c, i.dst, v); }
      }
    }
  }

  lemma SameClass(at: Placement, c: Context, v: nat, w: nat)
    requires KeepsClasses(at, c) && v != 0 && w != 0 && at(v) == at(w)
    ensures c.ClassOf(v) == c.ClassOf(w)
  {
  }

  /** So placements that respect the graph and the classes separate if no converting move loses its source. */
  lemma GraphSeparates(p: Program, c: Context, out: seq<set<nat>>, at: Placement)
    requires Fits(p, c, out) && Proper(at) && Respects(at, AllEdges(p, c, out)) && KeepsClasses(at, c)
    requires ConvertsGuarded(p, c, out) && forall d | 0 <= d < |out| :: 0 !in out[d]
    ensures Separates(p, out, at)
  {
    hide AllEdges, LiveAt, LosesSource, KeepsClasses, Respects, Apart;
    forall b: nat, k: nat | b < |p.code| && k < |p.code[b]| ensures Apart(at, p.code[b][k], LiveAt(p, out, b, k + 1)) {
      InstructionSeparates(p, c, out, at, b, k);
    }
  }

  /** All placements that respect the graph and the classes separate. */
  ghost predicate GraphSuffices(p: Program, c: Context, out: seq<set<nat>>)
    requires Fits(p, c, out)
  {
    forall at: Placement | Proper(at) && Respects(at, AllEdges(p, c, out)) && KeepsClasses(at, c) ::
        Separates(p, out, at)
  }

  function Joining(a: nat, b: nat): Placement {
    v => if v == a then b else v
  }

  /** The graph suffices exactly if no converting move loses its source. */
  lemma GraphSufficesExactly(p: Program, c: Context, out: seq<set<nat>>)
    requires Fits(p, c, out) && forall d | 0 <= d < |out| :: 0 !in out[d]
    ensures GraphSuffices(p, c, out) <==> ConvertsGuarded(p, c, out)
  {
    if ConvertsGuarded(p, c, out) {
      forall at: Placement | Proper(at) && Respects(at, AllEdges(p, c, out)) && KeepsClasses(at, c)
        ensures Separates(p, out, at)
      {
        GraphSeparates(p, c, out, at);
      }
    }
    if GraphSuffices(p, c, out) {
      forall b: nat, k: nat | b < |p.code| && k < |p.code[b]| ensures !LosesSource(p, c, out, b, k) {
        if ConvertKeepsSource(p, c, out, b, k) { SufficesGuards(p, c, out, b, k); }
      }
    }
  }

  lemma SufficesGuards(p: Program, c: Context, out: seq<set<nat>>, b: nat, k: nat)
    requires Fits(p, c, out) && GraphSuffices(p, c, out)
      && b < |p.code| && k < |p.code[b]| && ConvertKeepsSource(p, c, out, b, k)
    ensures KeptApart(p, c, out, p.code[b][k].dst, p.code[b][k].src1)
  {
    hide AllEdges, LiveAt, KeptApart;
    var i := p.code[b][k];
    EdgesMean(p, c, out, i.dst, i.src1);
    var at := Joining(i.dst, i.src1);
    assert !Apart(at, i, LiveAt(p, out, b, k + 1)) by { assert at(i.src1) == at(i.dst); }
    assert !Separates(p, out, at);
    assert KeepsClasses(at, c) && Proper(at);
    var edges := AllEdges(p, c, out);
    assert !Has(edges, i.dst, i.src1) ==> Respects(at, edges);
  }

  /** With the edges for instruction selection the operands of every move but IR_MOVE are kept apart. */
  lemma SelectionSplits(p: Program, c: Context, out: seq<set<nat>>, b: nat, k: nat)
    requires Fits(p, c, out) && c.instrsel && b < |p.code| && k < |p.code[b]|
    requires var i := p.code[b][k]; !IsIrMove(i) && i.dst != 0 && i.src1 != 0
    ensures KeptApart(p, c, out, p.code[b][k].dst, p.code[b][k].src1)
  {
    hide LiveAt, Defines, Subtracts, DemandsAny, Calls, Needs, Previous;
    assert KeepsAt(p, c, out, b, k, p.code[b][k].dst, p.code[b][k].src1);
  }

  /** So there no machine conversion loses its source; an IR_MOVE between types still may. */
  lemma SelectionGuards(p: Program, c: Context, out: seq<set<nat>>, b: nat, k: nat)
    requires Fits(p, c, out) && c.instrsel && b < |p.code| && k < |p.code[b]| && LosesSource(p, c, out, b, k)
    ensures p.code[b][k].op == Cast
  {
    hide LiveAt, KeptApart;
    if p.code[b][k].op == Convert { SelectionSplits(p, c, out, b, k); }
  }

  /** An IR_MOVE between operands of one type is a copy, and then they are of one class; otherwise it is a cast. */
  ghost predicate TypesFit(c: Context, i: Instr) {
    && (i.op == Move && i.dst != 0 && i.src1 != 0 ==>
          c.TypeOf(i.dst) == c.TypeOf(i.src1) && c.ClassOf(i.dst) == c.ClassOf(i.src1))
    && (i.op == Cast && i.dst != 0 && i.src1 != 0 ==> c.TypeOf(i.dst) != c.TypeOf(i.src1))
  }

  ghost predicate Typed(p: Program, c: Context) {
    forall b, k | 0 <= b < |p.code| && 0 <= k < |p.code[b]| :: TypesFit(c, p.code[b][k])
  }

  /** Vregs of different types get different locations. */
  ghost predicate KeepsTypes(at: Placement, c: Context) {
    forall v: nat, w: nat | v != 0 && w != 0 && at(v) == at(w) :: c.TypeOf(v) == c.TypeOf(w)
  }

  /** Where vregs of one type only share a location, casts do not lose their sources either. */
  lemma TypedSeparates(p: Program, c: Context, out: seq<set<nat>>, at: Placement)
    requires Fits(p, c, out) && Proper(at) && Respects(at, AllEdges(p, c, out)) && KeepsClasses(at, c)
    requires c.instrsel && Typed(p, c) && KeepsTypes(at, c) && forall d | 0 <= d < |out| :: 0 !in out[d]
    ensures Separates(p, out, at)
  {
    hide AllEdges, LiveAt, LosesSource, KeepsClasses, Respects, Apart, KeepsTypes, Typed, TypesFit;
    forall b: nat, k: nat | b < |p.code| && k < |p.code[b]|
      ensures Apart(at, p.code[b][k], LiveAt(p, out, b, k + 1))
    {
      InstructionSeparates(p, c, out, at, b, k);
      if LosesSource(p, c, out, b, k) {
        SelectionGuards(p, c, out, b, k);
        assert TypesFit(c, p.code[b][k]) by { InstructionTyped(p, c, b, k); }
        CastIsApart(p, c, out, at, b, k);
      }
    }
  }

  lemma InstructionTyped(p: Program, c: Context, b: nat, k: nat)
    requires Typed(p, c) && b < |p.code| && k < |p.code[b]|
    ensures TypesFit(c, p.code[b][k])
  {
    hide TypesFit;
  }

  lemma CastIsApart(p: Program, c: Context, out: seq<set<nat>>, at: Placement, b: nat, k: nat)
    requires Fits(p, c, out) && Proper(at) && Respects(at, AllEdges(p, c, out)) && KeepsClasses(at, c)
    requires KeepsTypes(at, c) && b < |p.code| && k < |p.code[b]| && forall d | 0 <= d < |out| :: 0 !in out[d]
    requires p.code[b][k].op == Cast && TypesFit(c, p.code[b][k])
    ensures Apart(at, p.code[b][k], LiveAt(p, out, b, k + 1))
  {
    hide LiveAt, AllEdges, KeepsClasses, Respects;
    var i, after := p.code[b][k], LiveAt(p, out, b, k + 1);
    LiveAtPositive(p, out, b, k + 1);
    if i.dst != 0 {
      forall v | v in after && v != i.dst ensures at(v) != at(i.dst) {
        if at(v) == at(i.dst) { RivalIsApart(p, c, out, at, b, k, v); }
      }
    }
  }

  /** And no extending move gets its result where its source is. */
  lemma SelectionUnshared(p: Program, c: Context, out: seq<set<nat>>, at: Placement)
    requires Fits(p, c, out) && c.instrsel && Respects(at, AllEdges(p, c, out))
      && forall d | 0 <= d < |out| :: 0 !in out[d]
    ensures Unshared(p, out, at)
  {
    hide LiveAt, AllEdges, KeptApart;
    forall b: nat, k: nat | b < |p.code| && k < |p.code[b]|
      ensures !Overwrites(at, p.code[b][k], LiveAt(p, out, b, k + 1))
    {
      var i := p.code[b][k];
      LiveAtPositive(p, out, b, k + 1);
      if Overwrites(at, i, LiveAt(p, out, b, k + 1)) {
        SelectionSplits(p, c, out, b, k);
        EdgesMean(p, c, out, i.dst, i.src1);
      }
    }
  }
}
