/** Instruction trees and the cheapest assignment of rules to them (instrsel.c:751-1037). */
module Tilings {

  /** An instruction tree; `id` numbers its nodes. Leaves are values, other nodes are operations. */
  datatype Tree =
    | Leaf(id: nat)
    | Nullary(id: nat, op: nat)
    | Unary(id: nat, op: nat, src1: Tree)
    | Binary(id: nat, op: nat, src1: Tree, src2: Tree)

  /** What a rule makes, what it needs its operands to be, and its cost. `src2` is 0 for rules with one operand. */
  datatype Rule = Rule(dst: nat, src1: nat, src2: nat, cost: nat)

  /** The rules, which of them are listed for each operation (0 for leaves), and whether the values and types at a
      node allow a rule there. */
  datatype Grammar = Grammar(rules: seq<Rule>, byOperation: nat -> seq<nat>, fits: (nat, nat) -> bool) {
    ghost predicate Valid() {
      forall op, i | 0 <= i < |byOperation(op)| :: byOperation(op)[i] < |rules|
    }
  }

  function Operation(t: Tree): nat {
    if t.Leaf? then 0 else t.op
  }

  /** The rule can be used at the root of `t` as far as the node itself goes. An operation without operands gets the
      first rule listed. */
  predicate Allowed(g: Grammar, t: Tree, r: nat) {
    && r < |g.rules|
    && match t
       case Leaf(id) => r in g.byOperation(0) && g.fits(id, r)
       case Nullary(_, op) => g.byOperation(op) != [] && r == g.byOperation(op)[0]
       case Unary(id, op, _) => r in g.byOperation(op) && g.rules[r].src2 == 0 && g.fits(id, r)
       case Binary(id, op, _, _) => r in g.byOperation(op) && g.rules[r].src2 != 0 && g.fits(id, r)
  }

  /** Operations without operands occur only as whole trees. */
  predicate OperandsOk(t: Tree) {
    match t
    case Leaf(_) => true
    case Nullary(_, _) => true
    case Unary(_, _, a) => OperandsOk(a) && !a.Nullary?
    case Binary(_, _, a, b) => OperandsOk(a) && OperandsOk(b) && !a.Nullary? && !b.Nullary?
  }

  /** A rule for every node. */
  datatype Tiling = Tiling(rule: nat, parts: seq<Tiling>)

  /** Every rule is allowed at its node, and what it needs of an operand is what the rule there makes. */
  ghost predicate Covers(g: Grammar, t: Tree, w: Tiling) {
    && Allowed(g, t, w.rule)
    && match t
       case Leaf(_) => w.parts == []
       case Nullary(_, _) => w.parts == []
       case Unary(_, _, a) => |w.parts| == 1 && Covers(g, a, w.parts[0]) &&
           g.rules[w.parts[0].rule].dst == g.rules[w.rule].src1
       case Binary(_, _, a, b) =>
         && |w.parts| == 2 && Covers(g, a, w.parts[0]) && Covers(g, b, w.parts[1])
         && g.rules[w.parts[0].rule].dst == g.rules[w.rule].src1 && g.rules[w.parts[1].rule].dst == g.rules[w.rule].src2
  }

  ghost function Cost(g: Grammar, t: Tree, w: Tiling): nat
    requires Covers(g, t, w)
  {
    g.rules[w.rule].cost +
    match t
    case Leaf(_) => 0
    case Nullary(_, _) => 0
    case Unary(_, _, a) => Cost(g, a, w.parts[0])
    case Binary(_, _, a, b) => Cost(g, a, w.parts[0]) + Cost(g, b, w.parts[1])
  }

  /** `m` is the least cost of a tiling of `t` whose root rule is `r`. */
  ghost predicate LeastWith(g: Grammar, t: Tree, r: nat, m: nat) {
    && (exists w :: Covers(g, t, w) && w.rule == r && Cost(g, t, w) == m)
    && (forall w | Covers(g, t, w) && w.rule == r :: m <= Cost(g, t, w))
  }

  /** `m` is the least cost of a tiling of `t` whose root rule makes `d`. */
  ghost predicate LeastMaking(g: Grammar, t: Tree, d: nat, m: nat) {
    && (exists w :: Covers(g, t, w) && g.rules[w.rule].dst == d && Cost(g, t, w) == m)
    && (forall w | Covers(g, t, w) && g.rules[w.rule].dst == d :: m <= Cost(g, t, w))
  }

  ghost predicate Makes(g: Grammar, t: Tree, d: nat) {
    exists w :: Covers(g, t, w) && g.rules[w.rule].dst == d
  }

  lemma LeastUnary(g: Grammar, t: Tree, r: nat, m: nat)
    requires t.Unary? && Allowed(g, t, r) && LeastMaking(g, t.src1, g.rules[r].src1, m)
    ensures LeastWith(g, t, r, g.rules[r].cost + m)
  {
    var a :| Covers(g, t.src1, a) && g.rules[a.rule].dst == g.rules[r].src1 && Cost(g, t.src1, a) == m;
    var w := Tiling(r, [a]);
    assert Covers(g, t, w) && Cost(g, t, w) == g.rules[r].cost + m;
  }

  lemma LeastBinary(g: Grammar, t: Tree, r: nat, m: nat, n: nat)
    requires t.Binary? && Allowed(g, t, r)
    requires LeastMaking(g, t.src1, g.rules[r].src1, m) && LeastMaking(g, t.src2, g.rules[r].src2, n)
    ensures LeastWith(g, t, r, g.rules[r].cost + m + n)
  {
    var a :| Covers(g, t.src1, a) && g.rules[a.rule].dst == g.rules[r].src1 && Cost(g, t.src1, a) == m;
    var b :| Covers(g, t.src2, b) && g.rules[b.rule].dst == g.rules[r].src2 && Cost(g, t.src2, b) == n;
    var w := Tiling(r, [a, b]);
    assert Covers(g, t, w) && Cost(g, t, w) == g.rules[r].cost + m + n;
  }

  lemma LeastLeaf(g: Grammar, t: Tree, r: nat)
    requires (t.Leaf? || t.Nullary?) && Allowed(g, t, r)
    ensures LeastWith(g, t, r, g.rules[r].cost)
  {
    var w := Tiling(r, []);
    assert Covers(g, t, w) && Cost(g, t, w) == g.rules[r].cost;
  }

  function Size(t: Tree): nat {
    match t
    case Leaf(_) => 1
    case Nullary(_, _) => 1
    case Unary(_, _, a) => 1 + Size(a)
    case Binary(_, _, a, b) => 1 + Size(a) + Size(b)
  }

  ghost predicate CheapRules(g: Grammar, most: nat) {
    forall i | 0 <= i < |g.rules| :: g.rules[i].cost <= most
  }

  /** A tiling costs at most `most` for each node. */
  lemma {:induction false} CostBound(g: Grammar, t: Tree, w: Tiling, most: nat)
    requires Covers(g, t, w) && CheapRules(g, most)
    ensures Cost(g, t, w) <= Size(t) * most
    decreases t
  {
    match t
    case Leaf(_) => Spread(0, 0, most);
    case Nullary(_, _) => Spread(0, 0, most);
    case Unary(_, _, a) =>
      Spread(Size(a), 0, most);
      CostBound(g, a, w.parts[0], most);
    case Binary(_, _, a, b) =>
      Spread(Size(a), Size(b), most);
      CostBound(g, a, w.parts[0], most);
      CostBound(g, b, w.parts[1], most);
  }

  lemma Spread(a: nat, b: nat, m: nat)
    ensures (1 + a + b) * m == m + a * m + b * m
  {
  }
}
