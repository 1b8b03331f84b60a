/** Constant expressions and the grammar of C89 (constexpr.c:199-470). */
module ConstExpr {
  import opened Precedence
  import opened Basics

  /** The levels passed for right operands, constexpr.c:436-455. */
  function SecondLevel(op: Binary): nat {
    match op
    case Mul | Div | Mod => DOT
    case Add | Sub => Code(Mul)
    case Shr | Shl => Code(Add)
    case Lt | Gt | Le | Ge => Code(Shr)
    case Eq | Ne => Code(Lt)
    case BitAnd => Code(Eq)
    case Xor => Code(BitAnd)
    case BitOr => Code(Xor)
    case And => Code(BitOr)
    case Or => Code(And)
  }

  /** The lowest level above each operator. */
  function StandardLevel(op: Binary): nat {
    if IsRelational(op) then Code(Shl) else SecondLevel(op)
  }

  predicate IsRelational(op: Binary) {
    op == Lt || op == Gt || op == Le || op == Ge
  }

  // The stratified grammar

  /** From logical-OR-expression up to multiplicative-expression. */
  function Rank(op: Binary): nat {
    match op
    case Or => 1
    case And => 2
    case BitOr => 3
    case Xor => 4
    case BitAnd => 5
    case Eq | Ne => 6
    case Lt | Gt | Le | Ge => 7
    case Shl | Shr => 8
    case Add | Sub => 9
    case Mul | Div | Mod => 10
  }

  function RankOf(e: Expr): nat {
    match e
    case Bin(op, _, _) => Rank(op)
    case Pre(_, _) => 11
    case _ => 12
  }

  /** Left operands are of the same stratum or above, right operands are above. */
  ghost predicate Stratified(e: Expr) {
    match e
    case Num(_) => true
    case Paren(i) => Stratified(i)
    case Pre(_, a) => Stratified(a) && RankOf(a) >= 11
    case Bin(op, l, r) => Stratified(l) && Stratified(r) && RankOf(l) >= Rank(op) && RankOf(r) > Rank(op)
  }

  lemma LevelsAreRanks(op: Binary, x: Binary)
    ensures Code(x) >= StandardLevel(op) <==> Rank(x) > Rank(op)
  {
  }

  /** On the way down to the leftmost operand strata do not fall. */
  lemma {:induction false} LeftByRank(op: Binary, e: Expr)
    requires Stratified(e)
    ensures LeftAtLeast(e, StandardLevel(op)) <==> RankOf(e) > Rank(op)
  {
    hide Code, Rank, StandardLevel;
    RankSmall(op);
    if e.Bin? {
      LevelsAreRanks(op, e.op);
      LeftByRank(op, e.left);
    }
  }

  lemma RankSmall(op: Binary)
    ensures 1 <= Rank(op) <= 10
  {
  }

  lemma {:induction false} EndsByRank(op: Binary, e: Expr)
    requires Stratified(e)
    ensures Ends(StandardLevel, e, [Operator(op)]) <==> RankOf(e) >= Rank(op)
  {
    hide Code, Rank, StandardLevel;
    RankSmall(op);
    if e.Bin? {
      LevelsAreRanks(e.op, op);
      EndsByRank(op, e.right);
    }
  }

  /** With the standard levels the parser builds the trees of the stratified grammar. */
  lemma {:induction false} StandardIsStratified(e: Expr)
    ensures Shaped(StandardLevel, e) <==> Stratified(e)
    decreases e
  {
    hide Code, Rank, StandardLevel, LeftAtLeast, Ends;
    match e
    case Num(_) =>
    case Paren(i) => StandardIsStratified(i);
    case Pre(_, a) =>
      StandardIsStratified(a);
      if a.Bin? { RankSmall(a.op); }
    case Bin(op, l, r) =>
      StandardIsStratified(l);
      StandardIsStratified(r);
      if Stratified(l) { EndsByRank(op, l); }
      if Stratified(r) { LeftByRank(op, r); }
  }

  // Where the code parses differently

  /** A left shift on the way down to the leftmost operand. */
  predicate ShiftsLeftFirst(e: Expr) {
    e.Bin? && (e.op == Shl || ShiftsLeftFirst(e.left))
  }

  /** The right operand of some relational operator is a chain of shifts with a left shift in it. */
  predicate ComparesLeftShift(e: Expr) {
    match e
    case Num(_) => false
    case Paren(i) => ComparesLeftShift(i)
    case Pre(_, a) => ComparesLeftShift(a)
    case Bin(op, l, r) => ComparesLeftShift(l) || ComparesLeftShift(r) || (IsRelational(op) && ShiftsLeftFirst(r))
  }

  lemma LevelsDiffer(op: Binary, x: Binary)
    ensures Code(x) >= SecondLevel(op) <==> Code(x) >= StandardLevel(op) && !(IsRelational(op) && x == Shl)
  {
  }

  lemma {:induction false} LeftDiffers(op: Binary, e: Expr)
    ensures LeftAtLeast(e, SecondLevel(op)) <==>
              LeftAtLeast(e, StandardLevel(op)) && !(IsRelational(op) && ShiftsLeftFirst(e))
  {
    hide Code, SecondLevel, StandardLevel;
    if e.Bin? {
      LevelsDiffer(op, e.op);
      LeftDiffers(op, e.left);
    }
  }

  lemma {:induction false} EndsAnyway(op: Binary, e: Expr)
    requires Ends(StandardLevel, e, [Operator(op)])
    ensures Ends(SecondLevel, e, [Operator(op)])
  {
    hide Code, SecondLevel, StandardLevel;
    if e.Bin? {
      LevelsDiffer(e.op, op);
      EndsAnyway(op, e.right);
    }
  }

  lemma {:induction false} ShapedExactly(e: Expr)
    requires Stratified(e)
    ensures Shaped(SecondLevel, e) <==> !ComparesLeftShift(e)
    decreases e
  {
    hide Code, SecondLevel, StandardLevel, Rank, LeftAtLeast, Ends, ShiftsLeftFirst;
    match e
    case Num(_) =>
    case Paren(i) => ShapedExactly(i);
    case Pre(_, a) =>
      ShapedExactly(a);
      if a.Bin? { RankSmall(a.op); }
    case Bin(op, l, r) =>
      ShapedExactly(l);
      ShapedExactly(r);
      StandardIsStratified(e);
      EndsAnyway(op, l);
      LeftDiffers(op, r);
  }

  /** A whole expression, followed by no operator, is parsed to its tree in the C89 grammar exactly if no relational
      operator has a left shift chain as its right operand. */
  lemma ParsesStandardTree(e: Expr, rest: seq<Token>)
    requires Stratified(e) && OperatorAt(rest) == None
    ensures Parse(SecondLevel, Tokens(e) + rest, EQ) == Some((e, rest)) <==> !ComparesLeftShift(e)
  {
    hide Parse, Code, Rank, Tokens;
    ShapedExactly(e);
    EndsNothing(SecondLevel, e, rest);
    EveryLevel(e);
    ParseExactly(SecondLevel, Tokens(e) + rest, EQ, e, rest);
  }

  lemma {:induction false} EveryLevel(e: Expr)
    ensures LeftAtLeast(e, EQ)
  {
    if e.Bin? { EveryLevel(e.left); }
  }

  /** C89 trees are unambiguous. */
  lemma StandardTreeIsUnique(e: Expr, f: Expr)
    requires Stratified(e) && Stratified(f) && Tokens(e) == Tokens(f)
    ensures e == f
  {
    hide Parse, Code, Rank;
    StandardIsStratified(e);
    StandardIsStratified(f);
    EndsNothing(StandardLevel, e, []);
    EndsNothing(StandardLevel, f, []);
    EveryLevel(e);
    EveryLevel(f);
    assert Tokens(e) == Tokens(e) + [] && Tokens(f) == Tokens(f) + [];
    DerivationIsUnique(StandardLevel, Tokens(e), EQ, e, [], f, []);
  }

  /** 1 < 2 << 3 is parsed as (1 < 2) << 3. */
  lemma ComparisonOfShift()
    ensures var e := Bin(Lt, Num(1), Bin(Shl, Num(2), Num(3))); var f := Bin(Shl, Bin(Lt, Num(1), Num(2)), Num(3));
      Stratified(e) && !Stratified(f) && Tokens(e) == Tokens(f) && Parse(SecondLevel, Tokens(e), EQ) == Some((f, []))
  {
    var e := Bin(Lt, Num(1), Bin(Shl, Num(2), Num(3)));
    var f := Bin(Shl, Bin(Lt, Num(1), Num(2)), Num(3));
    assert Tokens(e) == [Number(1), Operator(Lt), Number(2), Operator(Shl), Number(3)] == Tokens(f);
    assert Tokens(f) == Tokens(f) + [];
    hide Parse;
    ParseExactly(SecondLevel, Tokens(f), EQ, f, []);
  }

  // The parser as it runs

  /** What operators compute is left open. */
  datatype Algebra = Algebra(prefix: (Prefix, int) -> int, binary: (Binary, int, int) -> int)

  function Value(a: Algebra, e: Expr): int {
    match e
    case Num(n) => n
    case Paren(i) => Value(a, i)
    case Pre(p, x) => a.prefix(p, Value(a, x))
    case Bin(op, l, r) => a.binary(op, Value(a, l), Value(a, r))
  }

  // Which operand is which

  /** x1 - x2 - ... - xn as tokens, as the tree that groups to the left, and as a number. */
  function Differences(xs: seq<int>): seq<Token>
    requires xs != []
  {
    if |xs| == 1 then [Number(xs[0])] else Differences(xs[..|xs| - 1]) + [Operator(Sub), Number(xs[|xs| - 1])]
  }

  function LeftTree(xs: seq<int>): Expr
    requires xs != []
  {
    if |xs| == 1 then Num(xs[0]) else Bin(Sub, LeftTree(xs[..|xs| - 1]), Num(xs[|xs| - 1]))
  }

  function Difference(xs: seq<int>): int
    requires xs != []
  {
    if |xs| == 1 then xs[0] else Difference(xs[..|xs| - 1]) - xs[|xs| - 1]
  }

  ghost predicate Subtracts(a: Algebra) {
    forall x: int, y: int :: a.binary(Sub, x, y) == x - y
  }

  lemma {:induction false} LeftTreeIs(a: Algebra, xs: seq<int>)
    requires xs != [] && Subtracts(a)
    ensures Tokens(LeftTree(xs)) == Differences(xs) && Stratified(LeftTree(xs)) && !ComparesLeftShift(LeftTree(xs))
    ensures RankOf(LeftTree(xs)) >= Rank(Sub) && Value(a, LeftTree(xs)) == Difference(xs)
  {
    if |xs| > 1 {
      LeftTreeIs(a, xs[..|xs| - 1]);
      assert Tokens(Num(xs[|xs| - 1])) == [Number(xs[|xs| - 1])];
    }
  }

  /** Repeated subtraction goes from left to right: 7 - 2 - 1 is 4. */
  lemma SubtractsFromLeft(a: Algebra, xs: seq<int>)
    requires xs != [] && Subtracts(a)
    ensures Parse(SecondLevel, Differences(xs), EQ) == Some((LeftTree(xs), []))
    ensures Value(a, LeftTree(xs)) == Difference(xs)
    ensures xs == [7, 2, 1] ==> Difference(xs) == 4
    ensures xs == [7, 2, 1] ==>
              Differences(xs) == [Number(7), Operator(Sub), Number(2), Operator(Sub), Number(1)]
  {
    hide Parse;
    LeftTreeIs(a, xs);
    ParsesStandardTree(LeftTree(xs), []);
    assert Tokens(LeftTree(xs)) + [] == Differences(xs);
    if xs == [7, 2, 1] {
      assert xs[..2] == [7, 2] && [7, 2][..1] == [7];
      assert Differences([7, 2]) == [Number(7), Operator(Sub), Number(2)];
    }
  }

  class Parser {
    const tokens: seq<Token>
    const algebra: Algebra
    var pos: nat

    constructor (tokens: seq<Token>, algebra: Algebra)
      ensures this.tokens == tokens && this.algebra == algebra && pos == 0
    {
      this.tokens, this.algebra, pos := tokens, algebra, 0;
    }

    ghost function Rest(): seq<Token>
      reads this
      requires pos <= |tokens|
    {
      tokens[pos..]
    }

    /** The result is the one parsed from `was`. */
    ghost predicate Returns(p: Parsed, ok: bool, value: int)
      reads this
    {
      match p
      case Some((e, rest)) => ok && pos <= |tokens| && value == Value(algebra, e) && Rest() == rest
      case None => !ok
    }

    method ParseConstantExpression(level: nat) returns (ok: bool, value: int)
      requires pos <= |tokens|
      modifies this
      ensures Returns(Parse(SecondLevel, old(Rest()), level), ok, value)
      ensures ok ==> old(pos) < pos
      decreases |tokens| - pos, 1
    {
      hide Code, SecondLevel, ParseOperand, Parse, Climb;
      ghost var all := Rest();
      ParseIsClimb(SecondLevel, all, level);
      ghost var e;
      ok, value, e := ParseOperandAt();
      if !ok { return; }
      while pos < |tokens| && tokens[pos].Operator? && Code(tokens[pos].op) >= level
        invariant old(pos) < pos <= |tokens| && value == Value(algebra, e)
        invariant Parse(SecondLevel, all, level) == Climb(SecondLevel, e, Rest(), level)
        decreases |tokens| - pos
      {
        var op := tokens[pos].op;
        ghost var here := Rest();
        assert here == [Operator(op)] + tokens[pos + 1..];
        ClimbTakes(SecondLevel, e, op, tokens[pos + 1..], level);
        pos := pos + 1;
        ghost var p := Parse(SecondLevel, Rest(), SecondLevel(op));
        var value2;
        ok, value2 := ParseConstantExpression(SecondLevel(op));
        if !ok { return; }
        value := algebra.binary(op, value, value2);
        e := Bin(op, e, p.value.0);
      }
      ClimbStops(SecondLevel, e, Rest(), level);
    }

    /** A number, a parenthesised expression, or a prefix operator with its operand. */
    method ParseOperandAt() returns (ok: bool, value: int, ghost e: Expr)
      requires pos <= |tokens|
      modifies this
      ensures Returns(ParseOperand(SecondLevel, old(Rest())), ok, value)
      ensures ok ==> old(pos) < pos <= |tokens| && ParseOperand(SecondLevel, old(Rest())) == Some((e, Rest()))
      decreases |tokens| - pos, 0
    {
      e := Num(0);
      if pos == |tokens| { return false, 0, e; }
      ghost var all := Rest();
      var prefix := PrefixAt(tokens[pos..]);
      assert all[1..] == tokens[pos + 1..];
      if prefix.Some? {
        pos := pos + 1;
        ghost var p := Parse(SecondLevel, Rest(), INC);
        ok, value := ParseConstantExpression(INC);
        if ok {
          value := algebra.prefix(prefix.value, value);
          e := Pre(prefix.value, p.value.0);
        }
      } else if tokens[pos].Number? {
        value := tokens[pos].n;
        e := Num(value);
        pos := pos + 1;
        ok := true;
      } else if tokens[pos] == LParen {
        pos := pos + 1;
        ghost var p := Parse(SecondLevel, Rest(), COMMA);
        ok, value := ParseConstantExpression(COMMA);
        if ok {
          if pos < |tokens| && tokens[pos] == RParen {
            e := Paren(p.value.0);
            assert p.value.1[1..] == tokens[pos + 1..];
            pos := pos + 1;
          } else {
            ok := false;
          }
        }
      } else {
        ok, value := false, 0;
      }
    }
  }
}
