/** A conversion whose result takes the register of its source (ssa.c:1471-1477). */
module LostSource {
  import opened Cfgs
  import opened Ir
  import opened EdgeMatrix
  import opened Separation
  import opened Interference
  import opened EdgeMeaning
  import opened InterferenceSound
  import opened Coloring
  import opened Regalloc

  const FLOAT: nat := 27
  const DOUBLE: nat := 28

  /** Make a float, convert it to a double, and use both. */
  function Code(): seq<Instr> {
    [Instr(Other(0), FLOAT, 0, 0, 0), Instr(Convert, DOUBLE, FLOAT, 0, 0), Instr(Other(1), 0, FLOAT, DOUBLE, 0)]
  }

  function Before(): Program {
    Program([Code()], Cfg([[]], [[]]))
  }

  function AllOf<T>(n: nat, x: T): (s: seq<T>)
    ensures |s| == n && forall i | 0 <= i < n :: s[i] == x
  {
    seq(n, _ => x)
  }

  /** Any register will do for the operands; the graph is the one for register allocation. */
  function Setting(): Context {
    Context(AllOf(29, Sse), [], [AllOf(3, Demand(0, 0, 0, {}))], true, false)
  }

  function Out(): seq<set<nat>> {
    [{}]
  }

  function Given(): Job {
    Job(28, {}, Setting(), AllOf(29, 0), 0)
  }

  /** Without neighbours both get the first floating point register. */
  function Chosen(): Locations {
    Locations([-1] + seq(26, i => i) + [12, 12], AllOf(29, 0), 0)
  }

  const XMM0: nat := RegisterAt(16)

  function After(): Program {
    Program([[Instr(Other(0), XMM0, 0, 0, 0), Instr(Convert, XMM0, XMM0, 0, 0), Instr(Other(1), 0, XMM0, XMM0, 0)]],
            Cfg([[]], [[]]))
  }

  /** The first instruction makes 1, and a conversion changes its operand. */
  function Changing(): Semantics {
    Semantics((h, op, imm, a, b) => if op == Other(0) then 1 else a + 1, (h, b) => 0)
  }

  lemma LiveHere()
    ensures LiveAt(Before(), Out(), 0, 3) == {} && LiveAt(Before(), Out(), 0, 2) == {FLOAT, DOUBLE}
    ensures LiveAt(Before(), Out(), 0, 1) == {FLOAT} && LiveAt(Before(), Out(), 0, 0) == {}
  {
  }

  /** Without demands, calls and shifts only definitions count. */
  lemma OnlyDefines(c: Context, prev: Instr, i: Instr, after: set<nat>, x: nat, y: nat)
    requires (i.op.Other? || i.op == Convert) && !c.instrsel
    ensures Keeps(c, prev, i, Demand(0, 0, 0, {}), after, x, y) <==> Defines(c, i, after, x, y)
  {
    hide Defines, RegisterOf, LostInCall;
  }

  /** The float is live after the conversion, and no instruction keeps it and the double apart. */
  lemma NothingKeepsApart(k: nat, x: nat, y: nat)
    requires k < 3
    ensures Fits(Before(), Setting(), Out()) && !KeepsAt(Before(), Setting(), Out(), 0, k, x, y)
  {
    LiveHere();
    hide LiveAt, Previous, Keeps;
    var prev, i, after := Previous(Before(), 0, k), Code()[k], LiveAt(Before(), Out(), 0, k + 1);
    assert Before().code[0][k] == i && Setting().demands[0][k] == Demand(0, 0, 0, {});
    OnlyDefines(Setting(), prev, i, after, x, y);
    OnlyDefines(Setting(), prev, i, after, y, x);
  }

  lemma NothingElsewhere(b: nat, k: nat, x: nat, y: nat)
    requires Fits(Before(), Setting(), Out()) && !(b == 0 && k < 3)
    ensures !KeepsAt(Before(), Setting(), Out(), b, k, x, y)
  {
    hide Keeps, LiveAt;
  }

  lemma NoneKeptApart(x: nat, y: nat)
    requires Fits(Before(), Setting(), Out())
    ensures !KeptApart(Before(), Setting(), Out(), x, y)
  {
    hide KeepsAt;
    forall b: nat, k: nat ensures !KeepsAt(Before(), Setting(), Out(), b, k, x, y) {
      if b == 0 && k < 3 { NothingKeepsApart(k, x, y); } else { NothingElsewhere(b, k, x, y); }
    }
  }

  lemma NoEdges()
    ensures Fits(Before(), Setting(), Out()) && AllEdges(Before(), Setting(), Out()) == {}
    ensures !ConvertsGuarded(Before(), Setting(), Out())
  {
    hide KeptApart, LiveAt, AllEdges;
    NothingKeepsApart(0, 0, 0);
    var edges := AllEdges(Before(), Setting(), Out());
    if e :| e in edges {
      assert Has(edges, e.0, e.1);
      EdgesMean(Before(), Setting(), Out(), e.0, e.1);
      NoneKeptApart(e.0, e.1);
    }
    NoneKeptApart(DOUBLE, FLOAT);
    LiveHere();
    assert LosesSource(Before(), Setting(), Out(), 0, 1);
  }

  // What becomes of it

  lemma BothColored()
    ensures Colored(Given(), Chosen(), ClassMembers(Given(), Int) + ClassMembers(Given(), Sse))
  {
    var j, l := Given(), Chosen();
    assert forall r: nat | 0 < r <= RESERVED :: l.preg[r] == r - 1;
    forall v: nat | RESERVED < v <= j.n ensures v in ClassMembers(j, Int) + ClassMembers(j, Sse) && Located(j, l, v) {
      assert v == FLOAT || v == DOUBLE;
    }
  }

  lemma NoneSpilled(kind: Class)
    ensures SpillsBlocked(Given(), Chosen().preg, kind)
  {
    hide Degree, NeighborRegisters;
    forall v: nat | RESERVED < v <= Given().n ensures Chosen().preg[v] != -1 { assert v == FLOAT || v == DOUBLE; }
  }

  /** It is what colouring makes of the empty graph, in whatever order the vregs come. */
  lemma AllocatedTopDown(order: seq<nat>, prefer: seq<nat>)
    requires IsOrder(28, order) && prefer == AllOf(29, 0)
    ensures TopDown(Given(), Chosen().preg, order, prefer, true, Int, {})
    ensures TopDown(Given(), Chosen().preg, order, prefer, true, Sse, ClassMembers(Given(), Int))
  {
    hide NeighborRegisters, Only, Degree, IsOrder, ClassMembers;
    var j, preg := Given(), Chosen().preg;
    forall k: nat, c: Class, done: set<nat> | k < |order| && order[k] in ClassMembers(j, c) && order[k] <= 28
      ensures ChosenAt(j, preg, order, k, 0, c, done)
    {
      HasNoNeighbors(Only(preg, done), c, order[k]);
      InSseClass(c, order[k]);
    }
    assert forall k: nat | k < |order| :: order[k] <= 28 by { AllBelow(order); }
  }

  lemma AllBelow(order: seq<nat>)
    requires IsOrder(28, order)
    ensures forall k: nat | k < |order| :: order[k] <= 28
  {
  }

  lemma InSseClass(c: Class, v: nat)
    requires v in ClassMembers(Given(), c)
    ensures c == Sse && (v == FLOAT || v == DOUBLE)
  {
  }

  lemma HasNoNeighbors(preg: seq<int>, c: Class, v: nat)
    requires |preg| == 29
    ensures NeighborRegisters(Given(), preg, c, v, 28) == {}
  {
  }

  lemma GivenSize()
    ensures Given().n == 28 && |Chosen().preg| == 29
  {
  }

  lemma SamePlaces()
    ensures Where(Chosen(), FLOAT) == Where(Chosen(), DOUBLE) == XMM0 && Where(Chosen(), 0) == 0
  {
    assert MachineRegister(12) == 16;
  }

  lemma CodeRewritten()
    ensures Rewritten(Before(), After(), Placing(Chosen()))
  {
    hide Where;
    SamePlaces();
  }

  lemma NothingDestroyed(k: nat, junk: (History, nat) -> int)
    requires k < 3
    ensures var m := Hardware(Before(), Setting(), junk);
      m.setup(0, k) == {} && m.early(0, k) == {} && m.late(0, k) == {}
  {
    hide Where, Chosen;
    var i := Code()[k];
    assert Before().code[0][k] == i && Setting().demands[0][k] == Demand(0, 0, 0, {});
    assert Scratch(Previous(Before(), 0, k), i) == {} && Registers({}) == {};
  }

  lemma BothValid()
    ensures Before().Valid() && After().Valid()
  {
  }

  /** One instruction on a machine that destroys nothing there. */
  lemma StepQuietly(m: Machine, s: State)
    requires After().Valid() && s.block == 0 && s.index < 3
    requires m.setup(0, s.index) == {} && m.early(0, s.index) == {} && m.late(0, s.index) == {}
    ensures StepOn(After(), Changing(), m, s) == Step(After(), Changing(), s)
  {
    hide Destroy, Cfg.Valid;
    DestroyNothing(s.env, s.history, m.junk);
    var i := After().code[0][s.index];
    var x := Value(Changing(), s.history, i, Read(s.env, i.src1), Read(s.env, i.src2));
    DestroyNothing(Write(s.env, i.dst, x), s.history, m.junk);
  }

  /** Code that the pass accepts. */
  lemma Accepted()
    ensures Before().Valid() && Covers(Before(), Out()) && Unreserved(Before(), Out())
      && LiveAt(Before(), Out(), 0, 0) == {}
    ensures Fits(Before(), Setting(), Out()) && Interference.Numbered(Before(), Setting(), Out(), 28)
      && ParametersApart(Given())
  {
    LiveHere();
    hide LiveAt;
    assert forall k | 0 <= k < 3 :: InGraph(28, Code()[k]) && AllAbove(Mentioned(Code()[k]));
  }

  /** One instruction, none of which is silent here. */
  lemma OneStep(p: Program, s: State, i: Instr)
    requires p.Valid() && |p.code| == 1 && s.block == 0 && s.index < |p.code[0]| && i == p.code[0][s.index]
    requires i.op != Nop && i.op != Move && i.op != XMov
    ensures var a := Read(s.env, i.src1);
      Step(p, Changing(), s) == State(0, s.index + 1, Write(s.env, i.dst, if i.op == Other(0) then 1 else a + 1),
                                      s.history + [Event(i.op, i.imm, a, Read(s.env, i.src2))])
  {
    hide Cfg.Valid, Read, Write;
  }

  lemma RunBefore(env: Env)
    ensures Before().Valid()
    ensures Run(Before(), Changing(), env, 3).history ==
            [Event(Other(0), 0, 0, 0), Event(Convert, 0, 1, 0), Event(Other(1), 0, 1, 2)]
  {
    BothValid();
    hide Cfg.Valid, Step;
    var p := Before();
    var s0 := State(0, 0, env, []);
    OneStep(p, s0, Code()[0]);
    var s1 := Step(p, Changing(), s0);
    assert Run(p, Changing(), env, 1) == s1;
    OneStep(p, s1, Code()[1]);
    var s2 := Step(p, Changing(), s1);
    assert Run(p, Changing(), env, 2) == s2;
    OneStep(p, s2, Code()[2]);
  }

  lemma RunAfter(m: Machine, env: Env)
    requires forall k: nat | k < 3 :: m.setup(0, k) == {} && m.early(0, k) == {} && m.late(0, k) == {}
    ensures After().Valid()
    ensures RunOn(After(), Changing(), m, env, 3).history ==
            [Event(Other(0), 0, 0, 0), Event(Convert, 0, 1, 0), Event(Other(1), 0, 2, 2)]
  {
    BothValid();
    hide StepOn, Cfg.Valid, Step;
    var q := After();
    var s0 := State(0, 0, env, []);
    StepQuietly(m, s0);
    OneStep(q, s0, q.code[0][0]);
    var s1 := Step(q, Changing(), s0);
    assert RunOn(q, Changing(), m, env, 1) == s1;
    StepQuietly(m, s1);
    OneStep(q, s1, q.code[0][1]);
    var s2 := Step(q, Changing(), s1);
    assert RunOn(q, Changing(), m, env, 2) == s2;
    StepQuietly(m, s2);
    OneStep(q, s2, q.code[0][2]);
  }

  lemma HistoriesDiffer(junk: (History, nat) -> int, env: Env, env': Env)
    ensures Before().Valid() && After().Valid()
    ensures var h, g := Run(Before(), Changing(), env, 3).history,
                        RunOn(After(), Changing(), Hardware(Before(), Setting(), junk), env', 3).history;
      |h| == |g| == 3 && h[2] == Event(Other(1), 0, 1, 2) && g[2] == Event(Other(1), 0, 2, 2)
  {
    hide Hardware, Run, RunOn, Cfg.Valid, Chosen, Setting, Before, After, Changing;
    forall k: nat | k < 3 { NothingDestroyed(k, junk); }
    RunBefore(env);
    RunAfter(Hardware(Before(), Setting(), junk), env');
  }

  /** The pass accepts this code, no edge is drawn, and an allocation with all the properties of `AllocateRegisters`
      puts float and double in one register; there the last instruction reads the double in place of the float. */
  lemma ConversionLosesSource(junk: (History, nat) -> int, env: Env, env': Env)
    ensures Fits(Before(), Setting(), Out()) && Interference.Numbered(Before(), Setting(), Out(), 28)
      && ParametersApart(Given())
    ensures Covers(Before(), Out()) && Unreserved(Before(), Out()) && LiveAt(Before(), Out(), 0, 0) == {}
    ensures AllEdges(Before(), Setting(), Out()) == {} && !ConvertsGuarded(Before(), Setting(), Out())
    ensures Allocated(Given(), Chosen()) && Rewritten(Before(), After(), Placing(Chosen()))
    ensures var preg, none := Chosen().preg, AllOf(29, 0);
      |preg| == 29 && forall order: seq<nat> | IsOrder(28, order) ::
          && TopDown(Given(), preg, order, none, true, Int, {})
          && TopDown(Given(), preg, order, none, true, Sse, ClassMembers(Given(), Int))
    ensures Before().Valid() && After().Valid()
    ensures var h, g := Run(Before(), Changing(), env, 3).history,
                        RunOn(After(), Changing(), Hardware(Before(), Setting(), junk), env', 3).history;
      |h| == |g| == 3 && h[2] == Event(Other(1), 0, 1, 2) && g[2] == Event(Other(1), 0, 2, 2)
  {
    hide Hardware, Colored, SpillsBlocked, Rewritten, Run, RunOn, Unreserved, LiveAt, ConvertsGuarded;
    hide AllEdges, Fits, Covers, Interference.Numbered, Cfg.Valid, Before, After, Setting, Chosen, Out, Given, Changing;
    hide ClassMembers, TopDown, IsOrder;
    NoEdges();
    BothColored();
    GivenSize();
    forall order: seq<nat> | IsOrder(28, order)
      ensures TopDown(Given(), Chosen().preg, order, AllOf(29, 0), true, Int, {})
      ensures TopDown(Given(), Chosen().preg, order, AllOf(29, 0), true, Sse, ClassMembers(Given(), Int))
    {
      AllocatedTopDown(order, AllOf(29, 0));
    }
    NoneSpilled(Int);
    NoneSpilled(Sse);
    CodeRewritten();
    Accepted();
    HistoriesDiffer(junk, env, env');
  }
}
