/** Colouring the interference graph top down (regalloc.c:93-274). */
module Coloring {
  import opened EdgeMatrix
  import opened Interference

  // Classes and their registers; registers are numbered from 0 here

  function First(c: Class): nat {
    if c == Sse then INT_COUNT else 0
  }

  function Count(c: Class): nat {
    match c
    case NoClass => 0
    case Int => INT_COUNT
    case Sse => SSE_COUNT
  }

  predicate InClass(c: Class, preg: int) {
    First(c) <= preg < First(c) + Count(c)
  }

  // Degrees

  ghost function Degree(n: nat, edges: set<Edge>, v: nat): nat {
    if n == 0 then 0 else Degree(n - 1, edges, v) + if Has(edges, n, v) then 1 else 0
  }

  /** Reading the triangular matrix on both sides of the diagonal finds exactly the neighbours. */
  lemma NeighborTest(ig: seq<bool>, n: nat, edges: set<Edge>, i: nat, v: nat)
    requires Draws(ig, n, edges) && Vreg(n, i) && Vreg(n, v)
    ensures i * n + v < |ig| && v * n + i < |ig|
    ensures ((i < v && ig[i * n + v]) || ig[v * n + i]) == Has(edges, i, v)
  {
    CellInRange(n, i, v);
    CellInRange(n, v, i);
    assert CellIs(ig, n, i, v, Has(edges, i, v));
    if i < v { assert BelowIsEmpty(ig, n, v, i); }
  }

  method IsNeighbor(ig: array<bool>, n: nat, i: nat, v: nat, ghost edges: set<Edge>) returns (yes: bool)
    requires Draws(ig[..], n, edges) && Vreg(n, i) && Vreg(n, v)
    ensures yes == Has(edges, i, v)
  {
    hide Draws, CellIs, BelowIsEmpty, Has;
    NeighborTest(ig[..], n, edges, i, v);
    yes := (i < v && ig[i * n + v]) || ig[v * n + i];
  }

  method GraphNodeDegree(ig: array<bool>, n: nat, v: nat, ghost edges: set<Edge>) returns (degree: nat)
    requires Draws(ig[..], n, edges) && Vreg(n, v)
    ensures degree == Degree(n, edges, v)
  {
    hide Draws;
    degree := 0;
    for i := 1 to n + 1
      invariant degree == Degree(i - 1, edges, v)
    {
      var yes := IsNeighbor(ig, n, i, v, edges);
      if yes { degree := degree + 1; }
    }
  }

  // Locations

  /** Where vregs are: a register or -1, and a stack index or 0. `spills` counts the stack indexes handed out. */
  datatype Locations = Locations(preg: seq<int>, slot: seq<int>, spills: nat)

  /** What a run of the allocator is given. */
  datatype Job = Job(n: nat, ghost edges: set<Edge>, context: Context, original: seq<int>, spillsBefore: nat) {
    ghost predicate Valid() {
      RESERVED <= n && |original| == n + 1
    }
  }

  /** Interfering vregs are in different registers. */
  ghost predicate ProperColors(j: Job, l: Locations)
    requires |l.preg| == j.n + 1
  {
    forall a: nat, b: nat | Vreg(j.n, a) && Vreg(j.n, b) && a != b && Has(j.edges, a, b) && l.preg[a] != -1 ::
      l.preg[a] != l.preg[b]
  }

  ghost predicate Located(j: Job, l: Locations, v: nat)
    requires |l.preg| == |l.slot| == |j.original| && v < |l.preg|
  {
    || (InClass(j.context.ClassOf(v), l.preg[v]) && l.slot[v] == 0)
    || (l.preg[v] == -1 && SpillIndex(j, l, v))
  }

  /** A spilled parameter keeps the stack index it came in; others have an index of their own. */
  ghost predicate SpillIndex(j: Job, l: Locations, v: nat)
    requires |l.slot| == |j.original| && v < |l.slot|
  {
    if j.original[v] != 0 then l.slot[v] == j.original[v] else 0 - l.spills <= l.slot[v] < 0 - j.spillsBefore
  }

  ghost predicate Spilled(l: Locations, v: nat)
    requires |l.preg| == |l.slot| && v < |l.preg|
  {
    l.preg[v] == -1 && l.slot[v] != 0
  }

  ghost predicate DistinctSpills(j: Job, l: Locations)
    requires |l.preg| == |l.slot| == |j.original|
  {
    forall a: nat, b: nat | a < |l.slot| && b < |l.slot| && a != b && Spilled(l, a) && Spilled(l, b)
        && j.original[a] == 0 && j.original[b] == 0 :: l.slot[a] != l.slot[b]
  }

  ghost predicate SpilledTo(j: Job, l: Locations, v: nat, s: int)
    requires |l.slot| == |j.original|
  {
    v < |l.slot| && j.original[v] == 0 && l.slot[v] == s
  }

  ghost predicate InUse(j: Job, l: Locations, s: int)
    requires |l.slot| == |j.original|
  {
    exists v: nat :: SpilledTo(j, l, v, s)
  }

  /** Every stack index handed out is that of some vreg. */
  ghost predicate NoHoles(j: Job, l: Locations)
    requires |l.slot| == |j.original|
  {
    forall s: int | 0 - l.spills <= s < 0 - j.spillsBefore :: InUse(j, l, s)
  }

  /** The reserved vregs are in their registers, those of `done` have a location, and the others have none. */
  ghost predicate Colored(j: Job, l: Locations, done: set<nat>) {
    && j.Valid() && |l.preg| == |l.slot| == j.n + 1 && j.spillsBefore <= l.spills
    && (forall r: nat | 0 < r <= RESERVED :: l.preg[r] == r - 1 && l.slot[r] == 0)
    && (forall v: nat | RESERVED < v <= j.n ::
          if v in done then Located(j, l, v) else l.preg[v] == -1 && l.slot[v] == 0)
    && l.preg[0] == -1 && l.slot[0] == 0
    && ProperColors(j, l) && DistinctSpills(j, l) && NoHoles(j, l)
  }

  // One vreg

  /** The first `k` vregs include `i`, a neighbour of `v` that counts: a reserved one does if it is of the class. */
  ghost predicate Counts(j: Job, c: Class, v: nat, k: nat, i: nat) {
    1 <= i <= k && Has(j.edges, i, v) && (i <= RESERVED ==> InClass(c, i - 1))
  }

  ghost predicate Taken(j: Job, preg: seq<int>, c: Class, v: nat, k: nat, x: int)
    requires k < |preg|
  {
    exists i: nat :: Counts(j, c, v, k, i) && preg[i] == x
  }

  /** The registers that the first `k` vregs which are neighbours of `v` are in. */
  ghost function NeighborRegisters(j: Job, preg: seq<int>, c: Class, v: nat, k: nat): set<nat>
    requires k < |preg|
  {
    set x: nat | x < RESERVED && Taken(j, preg, c, v, k, x)
  }

  lemma NoRegistersYet(j: Job, preg: seq<int>, c: Class, v: nat)
    requires |preg| > 0
    ensures NeighborRegisters(j, preg, c, v, 0) == {}
  {
    hide Has;
  }

  ghost function RegisterSet(preg: int): set<nat> {
    if preg < 0 then {} else {preg}
  }

  /** One more vreg adds its register if it is a neighbour that counts. */
  lemma NextRegister(j: Job, preg: seq<int>, c: Class, v: nat, i: nat)
    requires 1 <= i < |preg| && preg[i] < RESERVED
    ensures NeighborRegisters(j, preg, c, v, i) ==
            NeighborRegisters(j, preg, c, v, i - 1) + if Counts(j, c, v, i, i) then RegisterSet(preg[i]) else {}
  {
    hide Has, InClass;
    forall x: nat
      ensures Taken(j, preg, c, v, i, x) <==> Taken(j, preg, c, v, i - 1, x) || (Counts(j, c, v, i, i) && preg[i] == x)
    {
      if h: nat :| Counts(j, c, v, i, h) && preg[h] == x {
        if h < i { assert Counts(j, c, v, i - 1, h); }
      }
      if h: nat :| Counts(j, c, v, i - 1, h) && preg[h] == x { assert Counts(j, c, v, i, h); }
    }
  }

  /** They are no more than the neighbours. */
  lemma {:induction false} AtMostDegree(j: Job, preg: seq<int>, c: Class, v: nat, k: nat)
    requires k < |preg| && forall i | 0 <= i < |preg| :: preg[i] < RESERVED
    ensures |NeighborRegisters(j, preg, c, v, k)| <= Degree(k, j.edges, v)
  {
    hide Has, NeighborRegisters;
    if k == 0 {
      NoRegistersYet(j, preg, c, v);
    } else {
      AtMostDegree(j, preg, c, v, k - 1);
      NextRegister(j, preg, c, v, k);
    }
  }

  lemma ColoredRegisters(j: Job, l: Locations, done: set<nat>)
    requires Colored(j, l, done)
    ensures |l.preg| == |l.slot| == j.n + 1 && forall i | 0 <= i < |l.preg| :: -1 <= l.preg[i] < RESERVED
  {
    hide ProperColors, DistinctSpills, NoHoles;
    forall i | 0 <= i < |l.preg| ensures -1 <= l.preg[i] < RESERVED {
      if i > RESERVED && i in done { assert Located(j, l, i); }
    }
  }

  method NeighborColors(ig: array<bool>, j: Job, preg: array<int>, slot: array<int>, c: Class, v: nat,
                        ghost l: Locations, ghost done: set<nat>)
    returns (colors: set<nat>)
    requires Draws(ig[..], j.n, j.edges) && Colored(j, l, done) && preg[..] == l.preg && slot[..] == l.slot
    requires RESERVED < v <= j.n
    ensures |l.preg| == j.n + 1 && colors == NeighborRegisters(j, l.preg, c, v, j.n)
  {
    ColoredRegisters(j, l, done);
    hide Draws, Colored, Has, NeighborRegisters;
    colors := {};
    NoRegistersYet(j, l.preg, c, v);
    for i := 1 to j.n + 1
      invariant colors == NeighborRegisters(j, l.preg, c, v, i - 1)
    {
      NextRegister(j, l.preg, c, v, i);
      if i <= RESERVED && !(First(c) + 1 <= i <= First(c) + Count(c)) {
        assert !Counts(j, c, v, i, i);
      } else {
        var yes := IsNeighbor(ig, j.n, i, v, j.edges);
        if yes && preg[i] != -1 {
          colors := colors + {preg[i]};
        }
      }
    }
  }

  /** A set that holds `count` consecutive registers has at least as many elements. */
  lemma {:induction false} Pigeonhole(colors: set<nat>, first: nat, count: nat)
    requires forall x | first <= x < first + count :: x in colors
    ensures |colors| >= count
  {
    if count > 0 { Pigeonhole(colors - {first + count - 1}, first, count - 1); }
  }

  /** The first register of the class that no neighbour has. */
  method FirstFree(c: Class, colors: set<nat>) returns (x: int)
    requires |colors| < Count(c)
    ensures InClass(c, x) && x !in colors && forall y | First(c) <= y < x :: y in colors
  {
    x := First(c);
    while x < First(c) + Count(c)
      invariant First(c) <= x <= First(c) + Count(c) && forall y | First(c) <= y < x :: y in colors
    {
      if x !in colors { return; }
      x := x + 1;
    }
    Pigeonhole(colors, First(c), Count(c));
    assert false;
  }

  ghost predicate ChangedAt(l: Locations, m: Locations, v: nat) {
    && |m.preg| == |l.preg| && |m.slot| == |l.slot|
    && (forall i | 0 <= i < |l.preg| && i != v :: m.preg[i] == l.preg[i])
    && (forall i | 0 <= i < |l.slot| && i != v :: m.slot[i] == l.slot[i])
  }

  ghost predicate Uncolored(j: Job, l: Locations, done: set<nat>, v: nat, c: Class) {
    Colored(j, l, done) && RESERVED < v <= j.n && v !in done && c == j.context.ClassOf(v) && c != NoClass
  }

  lemma ColorKeeps(j: Job, l: Locations, done: set<nat>, v: nat, c: Class, x: nat)
    requires Uncolored(j, l, done, v, c) && InClass(c, x) && x !in NeighborRegisters(j, l.preg, c, v, j.n)
    ensures Colored(j, l.(preg := l.preg[v := x]), done + {v})
  {
    hide Has, NeighborRegisters;
    var m := l.(preg := l.preg[v := x]);
    assert ProperColors(j, m) by { ColorIsProper(j, l, done, v, c, x); }
    assert DistinctSpills(j, m) by { hide ProperColors, NoHoles; }
    assert NoHoles(j, m) by { SameHoles(j, l, m); }
    hide NoHoles;
    forall w: nat | RESERVED < w <= j.n
      ensures if w in done + {v} then Located(j, m, w) else m.preg[w] == -1 && m.slot[w] == 0
    {
      if w in done { assert Located(j, l, w); }
    }
  }

  lemma SameHoles(j: Job, l: Locations, m: Locations)
    requires |l.slot| == |j.original| && m.slot == l.slot && m.spills == l.spills && NoHoles(j, l)
    ensures NoHoles(j, m)
  {
    forall s: int | 0 - m.spills <= s < 0 - j.spillsBefore ensures InUse(j, m, s) {
      assert InUse(j, l, s);
      var v: nat :| SpilledTo(j, l, v, s);
      assert SpilledTo(j, m, v, s);
    }
  }

  lemma ColorIsProper(j: Job, l: Locations, done: set<nat>, v: nat, c: Class, x: nat)
    requires Uncolored(j, l, done, v, c) && InClass(c, x) && x !in NeighborRegisters(j, l.preg, c, v, j.n)
    ensures ProperColors(j, l.(preg := l.preg[v := x]))
  {
    hide DistinctSpills, Located, NoHoles;
    var m := l.(preg := l.preg[v := x]);
    forall a: nat, b: nat | Vreg(j.n, a) && Vreg(j.n, b) && a != b && Has(j.edges, a, b) && m.preg[a] != -1
      ensures m.preg[a] != m.preg[b]
    {
      if a == v { NotThisColor(j, l, c, v, x, b); }
      if b == v { NotThisColor(j, l, c, v, x, a); }
    }
  }

  lemma NotThisColor(j: Job, l: Locations, c: Class, v: nat, x: nat, b: nat)
    requires |l.preg| == j.n + 1 && RESERVED <= j.n && Vreg(j.n, b) && Has(j.edges, b, v) && InClass(c, x)
    requires forall r: nat | 0 < r <= RESERVED :: l.preg[r] == r - 1
    requires x !in NeighborRegisters(j, l.preg, c, v, j.n)
    ensures l.preg[b] != x
  {
    if l.preg[b] == x { assert Counts(j, c, v, j.n, b); }
  }

  /** The location of a spilled `v`. */
  function SpillSlot(j: Job, spills: nat, v: nat): int
    requires v < |j.original|
  {
    if j.original[v] != 0 then j.original[v] else 0 - spills - 1
  }

  function SpillsAfter(j: Job, spills: nat, v: nat): nat
    requires v < |j.original|
  {
    if j.original[v] != 0 then spills else spills + 1
  }

  lemma SpillKeeps(j: Job, l: Locations, done: set<nat>, v: nat, c: Class)
    requires Uncolored(j, l, done, v, c)
    ensures var slot, spills := l.slot[v := SpillSlot(j, l.spills, v)], SpillsAfter(j, l.spills, v);
      Colored(j, l.(slot := slot, spills := spills), done + {v})
  {
    hide Has;
    var m := l.(slot := l.slot[v := SpillSlot(j, l.spills, v)], spills := SpillsAfter(j, l.spills, v));
    assert ProperColors(j, m) by { hide DistinctSpills, Located, NoHoles; }
    assert DistinctSpills(j, m) by { hide NoHoles; SpillsStayDistinct(j, l, done, v, c); }
    assert NoHoles(j, m) by { hide ProperColors, DistinctSpills, Located; SpillLeavesNoHole(j, l, v); }
    hide NoHoles;
    forall w: nat | RESERVED < w <= j.n
      ensures if w in done + {v} then Located(j, m, w) else m.preg[w] == -1 && m.slot[w] == 0
    {
      if w in done { assert Located(j, l, w); }
    }
  }

  lemma SpillLeavesNoHole(j: Job, l: Locations, v: nat)
    requires |l.slot| == |j.original| && v < |l.slot| && l.slot[v] == 0 && NoHoles(j, l)
    ensures NoHoles(j, l.(slot := l.slot[v := SpillSlot(j, l.spills, v)], spills := SpillsAfter(j, l.spills, v)))
  {
    var m := l.(slot := l.slot[v := SpillSlot(j, l.spills, v)], spills := SpillsAfter(j, l.spills, v));
    forall s: int | 0 - m.spills <= s < 0 - j.spillsBefore ensures InUse(j, m, s) {
      if s == 0 - l.spills - 1 {
        assert SpilledTo(j, m, v, s);
      } else {
        assert InUse(j, l, s);
        var w: nat :| SpilledTo(j, l, w, s);
        assert SpilledTo(j, m, w, s);
      }
    }
  }

  lemma SpillsStayDistinct(j: Job, l: Locations, done: set<nat>, v: nat, c: Class)
    requires Uncolored(j, l, done, v, c)
    ensures DistinctSpills(j, l.(slot := l.slot[v := SpillSlot(j, l.spills, v)], spills := SpillsAfter(j, l.spills, v)))
  {
    hide ProperColors;
    forall a: nat | a <= j.n && a != v && Spilled(l, a) && j.original[a] == 0 ensures 0 - l.spills <= l.slot[a] {
      if a > RESERVED { assert a in done ==> Located(j, l, a); }
    }
  }

  /** What `v` gets when its neighbours have the registers `taken`: none if these are as many as the class has, else
      the preferred one if that is free, else the lowest of the class that is. */
  ghost predicate Chosen(c: Class, taken: set<nat>, preferred: nat, x: int) {
    && (x == -1 <==> |taken| >= Count(c))
    && (x != -1 && preferred != 0 && preferred - 1 !in taken ==> x == preferred - 1)
    && (x != -1 && (preferred == 0 || preferred - 1 in taken) ==>
          InClass(c, x) && x !in taken && forall y: nat | First(c) <= y < x :: y in taken)
  }

  /** Colour one vreg: spill it if its neighbours have all registers, else give it the preferred or the first free
      one. */
  method ColorVreg(ig: array<bool>, j: Job, preg: array<int>, slot: array<int>, spills: nat, v: nat, preferred: nat,
                   c: Class, ghost done: set<nat>)
    returns (newSpills: nat)
    requires Draws(ig[..], j.n, j.edges) && Uncolored(j, Locations(preg[..], slot[..], spills), done, v, c)
      && preg != slot
    requires preferred == 0 || InClass(c, preferred - 1)
    modifies preg, slot
    ensures Colored(j, Locations(preg[..], slot[..], newSpills), done + {v})
    ensures ChangedAt(Locations(old(preg[..]), old(slot[..]), spills), Locations(preg[..], slot[..], newSpills), v)
    ensures Chosen(c, NeighborRegisters(j, old(preg[..]), c, v, j.n), preferred, preg[v])
  {
    hide Draws, ProperColors, DistinctSpills, Located, Has, NoHoles, NeighborRegisters;
    ghost var l := Locations(preg[..], slot[..], spills);
    var colors := NeighborColors(ig, j, preg, slot, c, v, l, done);
    newSpills := spills;
    if |colors| >= Count(c) {
      slot[v] := SpillSlot(j, spills, v);
      newSpills := SpillsAfter(j, spills, v);
      SpillKeeps(j, l, done, v, c);
      assert Locations(preg[..], slot[..], newSpills) ==
             l.(slot := l.slot[v := SpillSlot(j, spills, v)], spills := newSpills);
    } else {
      var x: nat;
      if preferred != 0 && preg[preferred] !in colors {
        x := preg[preferred];
      } else {
        x := FirstFree(c, colors);
      }
      preg[v] := x;
      ColorKeeps(j, l, done, v, c, x);
      assert Locations(preg[..], slot[..], newSpills) == l.(preg := l.preg[v := x]);
    }
  }

  // One class

  /** Every vreg once, in any order. */
  ghost predicate IsOrder(n: nat, order: seq<nat>) {
    && (forall i | 0 <= i < |order| :: Vreg(n, order[i]))
    && (forall v: nat | Vreg(n, v) :: v in order)
    && (forall i, k | 0 <= i < k < |order| :: order[i] != order[k])
  }

  ghost function Above(members: set<nat>): set<nat> {
    set v | v in members && v > RESERVED
  }

  /** Preferences lie in the class of their vreg. */
  ghost predicate PrefersOwnClass(j: Job, prefer: seq<nat>) {
    |prefer| == j.n + 1 && forall v | 0 <= v < |prefer| && prefer[v] != 0 ::
        InClass(j.context.ClassOf(v), prefer[v] - 1)
  }

  ghost predicate OfClass(j: Job, members: set<nat>, c: Class) {
    forall v | v in members && v > RESERVED :: v <= j.n && j.context.ClassOf(v) == c
  }

  /** The vregs of `members` among the first `k` of the order. */
  ghost function Earlier(order: seq<nat>, k: nat, members: set<nat>): set<nat>
    requires k <= |order|
  {
    set v | v in members && v in order[..k]
  }

  /** The registers as they were when only the vregs of `done` and the reserved ones had theirs. */
  ghost function Only(preg: seq<int>, done: set<nat>): (r: seq<int>)
    ensures |r| == |preg|
  {
    seq(|preg|, v requires 0 <= v < |preg| => if 0 < v <= RESERVED || v in done then preg[v] else -1)
  }

  /** Vreg number `k` of the order got its register or was spilled by what its neighbours in `done` had then. */
  ghost predicate ChosenAt(j: Job, preg: seq<int>, order: seq<nat>, k: nat, preferred: nat, c: Class, done: set<nat>)
    requires |preg| == j.n + 1 && k < |order| && order[k] <= j.n
  {
    Chosen(c, NeighborRegisters(j, Only(preg, done), c, order[k], j.n), preferred, preg[order[k]])
  }

  lemma OnlyColored(j: Job, l: Locations, done: set<nat>)
    requires Colored(j, l, done)
    ensures Only(l.preg, done) == l.preg
  {
    hide ProperColors, DistinctSpills, NoHoles, Located;
  }

  lemma OnlyStays(was: seq<int>, now: seq<int>, done: set<nat>)
    requires |was| == |now| && forall v | 0 <= v < |was| && (v <= RESERVED || v in done) :: now[v] == was[v]
    ensures Only(now, done) == Only(was, done)
  {
  }

  /** What is decided for a vreg stays so when others get registers. */
  lemma ChosenStays(j: Job, was: seq<int>, now: seq<int>, order: seq<nat>, k: nat, preferred: nat, c: Class,
                    done: set<nat>)
    requires |was| == |now| == j.n + 1 && k < |order| && order[k] <= j.n && now[order[k]] == was[order[k]]
    requires forall v | 0 <= v < |was| && (v <= RESERVED || v in done) :: now[v] == was[v]
    requires ChosenAt(j, was, order, k, preferred, c, done)
    ensures ChosenAt(j, now, order, k, preferred, c, done)
  {
    OnlyStays(was, now, done);
    hide Only, NeighborRegisters, Chosen;
  }

  /** The vregs of `members` among the first `count` of the order were coloured one after the other. */
  ghost predicate ChosenInTurn(j: Job, preg: seq<int>, order: seq<nat>, count: nat, members: set<nat>,
                               prefer: seq<nat>, c: Class, done: set<nat>)
    requires |preg| == |prefer| == j.n + 1 && count <= |order| && IsOrder(j.n, order)
  {
    forall k: nat | k < count && order[k] in members ::
      ChosenAt(j, preg, order, k, prefer[order[k]], c, done + Earlier(order, k, members))
  }

  lemma NextInTurn(j: Job, was: seq<int>, now: seq<int>, order: seq<nat>, i: nat, members: set<nat>,
                   prefer: seq<nat>, c: Class, done: set<nat>)
    requires |was| == |now| == |prefer| == j.n + 1 && i < |order| && IsOrder(j.n, order)
    requires ChosenInTurn(j, was, order, i, members, prefer, c, done) && done !! members
      && forall v | v in members :: v > RESERVED
    requires forall v | 0 <= v <= j.n && !(v == order[i] && v in members) :: now[v] == was[v]
    requires order[i] in members ==>
      ChosenAt(j, now, order, i, prefer[order[i]], c, done + Earlier(order, i, members))
    ensures ChosenInTurn(j, now, order, i + 1, members, prefer, c, done)
  {
    hide ChosenAt;
    forall k: nat | k < i + 1 && order[k] in members
      ensures ChosenAt(j, now, order, k, prefer[order[k]], c, done + Earlier(order, k, members))
    {
      if k < i {
        assert order[i] !in order[..k];
        ChosenStays(j, was, now, order, k, prefer[order[k]], c, done + Earlier(order, k, members));
      }
    }
  }

  /** Colour the vregs of one priority set, in the given order. */
  method ColorMembers(ig: array<bool>, j: Job, preg: array<int>, slot: array<int>, spills: nat, order: seq<nat>,
                      members: set<nat>, prefer: seq<nat>, c: Class, ghost done: set<nat>)
    returns (newSpills: nat)
    requires Draws(ig[..], j.n, j.edges) && Colored(j, Locations(preg[..], slot[..], spills), done) && preg != slot
    requires IsOrder(j.n, order) && PrefersOwnClass(j, prefer) && OfClass(j, members, c) && c != NoClass
    requires done !! Above(members)
    modifies preg, slot
    ensures Colored(j, Locations(preg[..], slot[..], newSpills), done + Above(members)) && preg.Length == j.n + 1
    ensures ChosenInTurn(j, preg[..], order, |order|, Above(members), prefer, c, done)
    ensures forall v | 0 <= v < preg.Length && v !in Above(members) :: preg[v] == old(preg[v])
  {
    hide Draws, Colored, ChosenInTurn, Chosen, NeighborRegisters;
    newSpills := spills;
    ghost var now: set<nat> := done;
    ColoredSizes(j, Locations(preg[..], slot[..], spills), done);
    assert ChosenInTurn(j, preg[..], order, 0, Above(members), prefer, c, done) by {
      NoneInTurn(j, preg[..], order, Above(members), prefer, c, done);
    }
    for i := 0 to |order|
      invariant preg.Length == j.n + 1 == slot.Length && Colored(j, Locations(preg[..], slot[..], newSpills), now)
      invariant now == done + Earlier(order, i, Above(members))
      invariant ChosenInTurn(j, preg[..], order, i, Above(members), prefer, c, done)
      invariant forall v | 0 <= v < preg.Length && v !in Above(members) :: preg[v] == old(preg[v])
    {
      var v := order[i];
      assert order[..i + 1] == order[..i] + [v];
      ghost var l := Locations(preg[..], slot[..], newSpills);
      if v in members && v > RESERVED {
        assert v !in order[..i];
        OnlyColored(j, l, now);
        newSpills := ColorVreg(ig, j, preg, slot, newSpills, v, prefer[v], c, now);
        OnlyStays(l.preg, preg[..], now);
        now := now + {v};
      }
      NextInTurn(j, l.preg, preg[..], order, i, Above(members), prefer, c, done);
    }
    assert now == done + Above(members) by { assert order[..|order|] == order; }
  }

  lemma NoneInTurn(j: Job, preg: seq<int>, order: seq<nat>, members: set<nat>, prefer: seq<nat>, c: Class,
                   done: set<nat>)
    requires |preg| == |prefer| == j.n + 1 && IsOrder(j.n, order)
    ensures ChosenInTurn(j, preg, order, 0, members, prefer, c, done)
  {
  }

  lemma ColoredSizes(j: Job, l: Locations, done: set<nat>)
    requires Colored(j, l, done)
    ensures |l.preg| == |l.slot| == j.n + 1
  {
  }

  /** Before the first pass nothing has a location. */
  ghost function Precolored(l: Locations): Locations
    requires RESERVED < |l.preg|
  {
    l.(preg := seq(|l.preg|, v requires 0 <= v < |l.preg| => if 0 < v <= RESERVED then v - 1 else l.preg[v]))
  }

  lemma FreshIsColored(j: Job, l: Locations)
    requires j.Valid() && |l.preg| == |l.slot| == j.n + 1 && l.spills == j.spillsBefore
    requires forall v | 0 <= v <= j.n :: l.preg[v] == -1 && l.slot[v] == 0
    ensures Colored(j, Precolored(l), {})
  {
    hide Has;
  }

  lemma ColoredIsPrecolored(j: Job, l: Locations, done: set<nat>)
    requires Colored(j, l, done)
    ensures Precolored(l) == l
  {
  }

  method Precolor(preg: array<int>, ghost l: Locations)
    requires RESERVED < preg.Length && preg[..] == l.preg
    modifies preg
    ensures preg[..] == Precolored(l).preg
  {
    for r := 0 to RESERVED
      invariant forall v | 0 <= v < preg.Length :: preg[v] == if 0 < v <= r then v - 1 else l.preg[v]
    {
      preg[r + 1] := r;
    }
  }

  /** Which vregs of a class come first: those with as many neighbours as there are registers or more, then those with
      a preferred register if preferences are on, then the rest. */
  ghost function Rank(j: Job, prefer: seq<nat>, usePreferences: bool, c: Class, v: nat): nat
    requires |prefer| == j.n + 1 && v <= j.n
  {
    if Degree(j.n, j.edges, v) >= Count(c) then 0 else if usePreferences && prefer[v] != 0 then 1 else 2
  }

  /** The priority sets after the first `k` vregs of the order. */
  ghost predicate Sorted(j: Job, order: seq<nat>, k: nat, prefer: seq<nat>, usePreferences: bool, c: Class, rank: nat,
                         ranked: set<nat>)
    requires IsOrder(j.n, order) && k <= |order| && |prefer| == j.n + 1
  {
    forall v: nat :: v in ranked <==>
        v in order[..k] && (v <= RESERVED || j.context.ClassOf(v) == c) && v <= j.n
        && Rank(j, prefer, usePreferences, c, v) == rank
  }

  lemma SortedNext(j: Job, order: seq<nat>, i: nat, prefer: seq<nat>, usePreferences: bool, c: Class, rank: nat,
                   ranked: set<nat>)
    requires IsOrder(j.n, order) && i < |order| && |prefer| == j.n + 1
      && Sorted(j, order, i, prefer, usePreferences, c, rank, ranked)
    ensures var v := order[i];
      Sorted(j, order, i + 1, prefer, usePreferences, c, rank,
             if (v <= RESERVED || j.context.ClassOf(v) == c) && Rank(j, prefer, usePreferences, c, v) == rank
                 then ranked + {v} else ranked)
  {
    hide Rank;
    assert order[..i + 1] == order[..i] + [order[i]];
  }

  method PrioritySets(ig: array<bool>, j: Job, order: seq<nat>, prefer: seq<nat>, c: Class, usePreferences: bool)
    returns (constrained: set<nat>, preferred: set<nat>, unconstrained: set<nat>)
    requires Draws(ig[..], j.n, j.edges) && IsOrder(j.n, order) && |prefer| == j.n + 1
    ensures Sorted(j, order, |order|, prefer, usePreferences, c, 0, constrained)
    ensures Sorted(j, order, |order|, prefer, usePreferences, c, 1, preferred)
    ensures Sorted(j, order, |order|, prefer, usePreferences, c, 2, unconstrained)
  {
    constrained, preferred, unconstrained := {}, {}, {};
    assert forall rank: nat :: Sorted(j, order, 0, prefer, usePreferences, c, rank, {});
    hide Draws, Sorted, Degree;
    for i := 0 to |order|
      invariant Sorted(j, order, i, prefer, usePreferences, c, 0, constrained)
      invariant Sorted(j, order, i, prefer, usePreferences, c, 1, preferred)
      invariant Sorted(j, order, i, prefer, usePreferences, c, 2, unconstrained)
    {
      var v := order[i];
      SortedNext(j, order, i, prefer, usePreferences, c, 0, constrained);
      SortedNext(j, order, i, prefer, usePreferences, c, 1, preferred);
      SortedNext(j, order, i, prefer, usePreferences, c, 2, unconstrained);
      if v > RESERVED && j.context.ClassOf(v) != c {
      } else {
        var degree := GraphNodeDegree(ig, j.n, v, j.edges);
        if degree < Count(c) {
          if usePreferences && prefer[v] != 0 {
            preferred := preferred + {v};
          } else {
            unconstrained := unconstrained + {v};
          }
        } else {
          constrained := constrained + {v};
        }
      }
    }
  }

  /** All vregs above the reserved ones of class `c`. */
  ghost function ClassMembers(j: Job, c: Class): set<nat> {
    set v | v in Range(1, j.n) && v > RESERVED && j.context.ClassOf(v) == c
  }

  /** Those of rank `rank`. */
  ghost function Ranked(j: Job, prefer: seq<nat>, usePreferences: bool, c: Class, rank: nat): set<nat>
    requires |prefer| == j.n + 1
  {
    set v | v in ClassMembers(j, c) && v <= j.n && Rank(j, prefer, usePreferences, c, v) == rank
  }

  lemma SortedIsRanked(j: Job, order: seq<nat>, prefer: seq<nat>, usePreferences: bool, c: Class, rank: nat,
                       ranked: set<nat>)
    requires IsOrder(j.n, order) && |prefer| == j.n + 1
      && Sorted(j, order, |order|, prefer, usePreferences, c, rank, ranked)
    ensures Above(ranked) == Ranked(j, prefer, usePreferences, c, rank) && OfClass(j, ranked, c)
  {
    hide Rank;
    assert order[..|order|] == order;
    forall v: nat ensures v in Above(ranked) <==> v in Ranked(j, prefer, usePreferences, c, rank) {
      assert v in ranked <==>
          v in order && (v <= RESERVED || j.context.ClassOf(v) == c) && v <= j.n
          && Rank(j, prefer, usePreferences, c, v) == rank;
    }
  }

  /** The vregs of the class that come before number `k` of the order: those of lower rank, and earlier ones of the
      same rank. */
  ghost function Before(j: Job, order: seq<nat>, k: nat, prefer: seq<nat>, usePreferences: bool, c: Class): set<nat>
    requires IsOrder(j.n, order) && k < |order| && |prefer| == j.n + 1
  {
    set v | v in ClassMembers(j, c) && v <= j.n &&
        var mine, its := Rank(j, prefer, usePreferences, c, order[k]), Rank(j, prefer, usePreferences, c, v);
        its < mine || (its == mine && v in order[..k])
  }

  /** All vregs of the class were coloured by rank and in the given order within a rank, and those of rank 1 with their
      preferences. */
  ghost predicate TopDown(j: Job, preg: seq<int>, order: seq<nat>, prefer: seq<nat>, usePreferences: bool, c: Class,
                          done: set<nat>)
    requires |preg| == |prefer| == j.n + 1 && IsOrder(j.n, order)
  {
    forall k: nat | k < |order| && order[k] in ClassMembers(j, c) ::
      ChosenAt(j, preg, order, k, if Rank(j, prefer, usePreferences, c, order[k]) == 1 then prefer[order[k]] else 0, c,
               done + Before(j, order, k, prefer, usePreferences, c))
  }

  lemma BeforeIs(j: Job, order: seq<nat>, k: nat, prefer: seq<nat>, usePreferences: bool, c: Class)
    requires IsOrder(j.n, order) && k < |order| && |prefer| == j.n + 1 && order[k] in ClassMembers(j, c)
    ensures var rank := Rank(j, prefer, usePreferences, c, order[k]);
      && order[k] in Ranked(j, prefer, usePreferences, c, rank) && rank < 3
      && Before(j, order, k, prefer, usePreferences, c) ==
         (if rank > 0 then Ranked(j, prefer, usePreferences, c, 0) else {}) +
         (if rank > 1 then Ranked(j, prefer, usePreferences, c, 1) else {}) +
         Earlier(order, k, Ranked(j, prefer, usePreferences, c, rank))
  {
    hide Degree;
  }

  lemma RanksMakeClass(j: Job, prefer: seq<nat>, usePreferences: bool, c: Class)
    requires |prefer| == j.n + 1
    ensures var r0, r1, r2 := Ranked(j, prefer, usePreferences, c, 0), Ranked(j, prefer, usePreferences, c, 1),
        Ranked(j, prefer, usePreferences, c, 2);
      r0 + r1 + r2 == ClassMembers(j, c) && r0 !! r1 && r2 !! r0 + r1
  {
    hide Degree;
  }

  /** Registers or stack indexes for all vregs of class `c`: constrained ones first, then those with preferences. */
  method AllocateRegistersTopDown(ig: array<bool>, j: Job, preg: array<int>, slot: array<int>, spills: nat,
                                  order: seq<nat>,
                                  prefer: seq<nat>, c: Class, usePreferences: bool, ghost done: set<nat>)
    returns (newSpills: nat)
    requires Draws(ig[..], j.n, j.edges) && preg != slot && preg.Length == j.n + 1 && j.Valid()
    requires Colored(j, Precolored(Locations(preg[..], slot[..], spills)), done)
    requires IsOrder(j.n, order) && PrefersOwnClass(j, prefer) && c != NoClass && done !! ClassMembers(j, c)
    modifies preg, slot
    ensures Colored(j, Locations(preg[..], slot[..], newSpills), done + ClassMembers(j, c))
    ensures TopDown(j, preg[..], order, prefer, usePreferences, c, done)
    ensures forall v | 0 <= v < preg.Length && v !in ClassMembers(j, c) ::
              preg[v] == Precolored(old(Locations(preg[..], slot[..], spills))).preg[v]
  {
    hide Draws, Colored, Sorted, ChosenInTurn, Ranked, IsOrder, OfClass, TopDown, ClassMembers;
    ghost var use, r0, r1, r2 := usePreferences, Ranked(j, prefer, usePreferences, c, 0),
        Ranked(j, prefer, usePreferences, c, 1), Ranked(j, prefer, usePreferences, c, 2);
    var constrained, preferred, unconstrained := PrioritySets(ig, j, order, prefer, c, usePreferences);
    SortedIsRanked(j, order, prefer, use, c, 0, constrained);
    SortedIsRanked(j, order, prefer, use, c, 1, preferred);
    SortedIsRanked(j, order, prefer, use, c, 2, unconstrained);
    RanksMakeClass(j, prefer, use, c);
    ghost var l := Locations(preg[..], slot[..], spills);
    Precolor(preg, l);
    assert Locations(preg[..], slot[..], spills) == Precolored(l);
    var none := seq(j.n + 1, _ => 0);
    assert PrefersOwnClass(j, none) by { NoPreferences(j, none); }
    newSpills := ColorMembers(ig, j, preg, slot, spills, order, constrained, none, c, done);
    ghost var l0 := preg[..];
    newSpills := ColorMembers(ig, j, preg, slot, newSpills, order, preferred, prefer, c, done + r0);
    ghost var l1 := preg[..];
    newSpills := ColorMembers(ig, j, preg, slot, newSpills, order, unconstrained, none, c, done + r0 + r1);
    assert done + r0 + r1 + r2 == done + ClassMembers(j, c);
    InTurnIsTopDown(j, l0, l1, preg[..], order, prefer, none, use, c, done);
  }

  lemma NoPreferences(j: Job, none: seq<nat>)
    requires none == seq(j.n + 1, _ => 0)
    ensures PrefersOwnClass(j, none)
  {
  }

  /** The registers after each of the three priority sets. */
  ghost predicate ThreeTurns(j: Job, l0: seq<int>, l1: seq<int>, l2: seq<int>, order: seq<nat>, prefer: seq<nat>,
                             none: seq<nat>, use: bool, c: Class, done: set<nat>) {
    && |l0| == |l1| == |l2| == |prefer| == j.n + 1 && none == seq(j.n + 1, _ => 0) && IsOrder(j.n, order)
    && var r0, r1, r2 := Ranked(j, prefer, use, c, 0), Ranked(j, prefer, use, c, 1), Ranked(j, prefer, use, c, 2);
      && done !! ClassMembers(j, c)
      && ChosenInTurn(j, l0, order, |order|, r0, none, c, done)
      && ChosenInTurn(j, l1, order, |order|, r1, prefer, c, done + r0)
      && ChosenInTurn(j, l2, order, |order|, r2, none, c, done + r0 + r1)
      && (forall v | 0 <= v <= j.n && v !in r1 :: l1[v] == l0[v])
      && (forall v | 0 <= v <= j.n && v !in r2 :: l2[v] == l1[v])
  }

  lemma InTurnIsTopDown(j: Job, l0: seq<int>, l1: seq<int>, l2: seq<int>, order: seq<nat>, prefer: seq<nat>,
                        none: seq<nat>, use: bool, c: Class, done: set<nat>)
    requires ThreeTurns(j, l0, l1, l2, order, prefer, none, use, c, done)
    ensures TopDown(j, l2, order, prefer, use, c, done)
  {
    hide Rank, ChosenAt, ClassMembers, Before;
    forall k: nat | k < |order| && order[k] in ClassMembers(j, c)
      ensures ChosenAt(j, l2, order, k, if Rank(j, prefer, use, c, order[k]) == 1 then prefer[order[k]] else 0, c,
                       done + Before(j, order, k, prefer, use, c))
    {
      InTurnAt(j, l0, l1, l2, order, prefer, none, use, c, done, k);
    }
  }

  lemma InTurnAt(j: Job, l0: seq<int>, l1: seq<int>, l2: seq<int>, order: seq<nat>, prefer: seq<nat>,
                 none: seq<nat>, use: bool, c: Class, done: set<nat>, k: nat)
    requires ThreeTurns(j, l0, l1, l2, order, prefer, none, use, c, done)
    requires k < |order| && order[k] in ClassMembers(j, c)
    ensures ChosenAt(j, l2, order, k, if Rank(j, prefer, use, c, order[k]) == 1 then prefer[order[k]] else 0, c,
                     done + Before(j, order, k, prefer, use, c))
  {
    hide Rank, ChosenAt, Before;
    var r0, r1, r2 := Ranked(j, prefer, use, c, 0), Ranked(j, prefer, use, c, 1), Ranked(j, prefer, use, c, 2);
    var rank, before := Rank(j, prefer, use, c, order[k]), Before(j, order, k, prefer, use, c);
    BeforeIs(j, order, k, prefer, use, c);
    RanksMakeClass(j, prefer, use, c);
    if rank == 0 {
      assert done + before == done + Earlier(order, k, r0);
      ChosenStays(j, l0, l2, order, k, 0, c, done + before);
    } else if rank == 1 {
      assert done + before == done + r0 + Earlier(order, k, r1);
      ChosenStays(j, l1, l2, order, k, prefer[order[k]], c, done + before);
    } else {
      assert done + before == done + r0 + r1 + Earlier(order, k, r2);
    }
  }

  lemma TopDownStays(j: Job, was: seq<int>, now: seq<int>, order: seq<nat>, prefer: seq<nat>, usePreferences: bool,
                     c: Class, done: set<nat>)
    requires |was| == |now| == |prefer| == j.n + 1 && IsOrder(j.n, order)
      && TopDown(j, was, order, prefer, usePreferences, c, done)
    requires forall v | 0 <= v <= j.n && (v <= RESERVED || v in done + ClassMembers(j, c)) :: now[v] == was[v]
    ensures TopDown(j, now, order, prefer, usePreferences, c, done)
  {
    hide ChosenAt, Rank;
    forall k: nat | k < |order| && order[k] in ClassMembers(j, c)
      ensures ChosenAt(j, now, order, k,
                       if Rank(j, prefer, usePreferences, c, order[k]) == 1 then prefer[order[k]] else 0, c,
                       done + Before(j, order, k, prefer, usePreferences, c))
    {
      ChosenStays(j, was, now, order, k,
                  if Rank(j, prefer, usePreferences, c, order[k]) == 1 then prefer[order[k]] else 0, c,
                  done + Before(j, order, k, prefer, usePreferences, c));
    }
  }

  // What follows for vregs that are spilled

  /** A spilled vreg of the class has neighbours in as many registers as the class has. */
  ghost predicate SpillsBlocked(j: Job, preg: seq<int>, c: Class)
    requires |preg| == j.n + 1
  {
    forall v | v in ClassMembers(j, c) && v <= j.n && preg[v] == -1 ::
      |NeighborRegisters(j, preg, c, v, j.n)| >= Count(c)
  }

  lemma OnlyHasFewer(j: Job, preg: seq<int>, c: Class, v: nat, done: set<nat>)
    requires |preg| == j.n + 1
    ensures NeighborRegisters(j, Only(preg, done), c, v, j.n) <= NeighborRegisters(j, preg, c, v, j.n)
  {
    hide Has;
    forall x: nat | x < RESERVED && Taken(j, Only(preg, done), c, v, j.n, x) ensures Taken(j, preg, c, v, j.n, x) {
      var i: nat :| Counts(j, c, v, j.n, i) && Only(preg, done)[i] == x;
      assert preg[i] == x;
    }
  }

  lemma SubsetSize(small: set<nat>, large: set<nat>)
    requires small <= large
    ensures |small| <= |large|
  {
    assert large == small + (large - small);
  }

  /** A vreg is spilled exactly if the reserved ones and those coloured before it have as many registers. Then it has at
      least as many neighbours, and only vregs that do were coloured before it. */
  lemma SpilledExactly(j: Job, preg: seq<int>, order: seq<nat>, prefer: seq<nat>, usePreferences: bool, c: Class,
                       done: set<nat>, k: nat)
    requires |preg| == |prefer| == j.n + 1 && IsOrder(j.n, order) && k < |order| && order[k] in ClassMembers(j, c)
      && TopDown(j, preg, order, prefer, usePreferences, c, done)
      && forall i | 0 <= i < |preg| :: -1 <= preg[i] < RESERVED
    ensures var v, r0 := order[k], Ranked(j, prefer, usePreferences, c, 0);
      preg[v] == -1 <==>
        && Degree(j.n, j.edges, v) >= Count(c)
        && |NeighborRegisters(j, Only(preg, done + Earlier(order, k, r0)), c, v, j.n)| >= Count(c)
  {
    hide NeighborRegisters, Only, Degree, Ranked, ClassMembers, Before;
    var v, rank := order[k], Rank(j, prefer, usePreferences, c, order[k]);
    var before := done + Before(j, order, k, prefer, usePreferences, c);
    assert ChosenAt(j, preg, order, k, if rank == 1 then prefer[v] else 0, c, before);
    BeforeIs(j, order, k, prefer, usePreferences, c);
    OnlyBelow(preg, before);
    AtMostDegree(j, Only(preg, before), c, v, j.n);
    if rank == 0 { assert before == done + Earlier(order, k, Ranked(j, prefer, usePreferences, c, 0)); }
  }

  lemma OnlyBelow(preg: seq<int>, done: set<nat>)
    requires forall i | 0 <= i < |preg| :: -1 <= preg[i] < RESERVED
    ensures |Only(preg, done)| == |preg| && forall i | 0 <= i < |preg| :: Only(preg, done)[i] < RESERVED
  {
  }

  lemma TopDownBlocks(j: Job, preg: seq<int>, order: seq<nat>, prefer: seq<nat>, usePreferences: bool, c: Class,
                      done: set<nat>)
    requires |preg| == |prefer| == j.n + 1 && IsOrder(j.n, order)
      && TopDown(j, preg, order, prefer, usePreferences, c, done)
    ensures SpillsBlocked(j, preg, c)
  {
    hide NeighborRegisters, Only, Rank, Before;
    forall v | v in ClassMembers(j, c) && v <= j.n && preg[v] == -1
      ensures |NeighborRegisters(j, preg, c, v, j.n)| >= Count(c)
    {
      assert Vreg(j.n, v) && v in order;
      var k: nat :| k < |order| && order[k] == v;
      var before := done + Before(j, order, k, prefer, usePreferences, c);
      assert ChosenAt(j, preg, order, k,
                      if Rank(j, prefer, usePreferences, c, order[k]) == 1 then prefer[order[k]] else 0, c, before);
      OnlyHasFewer(j, preg, c, v, before);
      SubsetSize(NeighborRegisters(j, Only(preg, before), c, v, j.n), NeighborRegisters(j, preg, c, v, j.n));
    }
  }
}
