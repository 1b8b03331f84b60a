/** Precedence climbing with a table of second levels (constexpr.c:289-470). */
module Precedence {
  import opened Basics

  datatype Binary = Or | And | BitOr | Xor | BitAnd | Eq | Ne | Lt | Gt | Le | Ge | Shl | Shr | Add | Sub | Mul
      | Div | Mod

  datatype Prefix = Plus | Minus | Not | Complement

  /** `Add` and `Sub` tokens are prefix operators too, where an operand is expected. */
  datatype Token = Number(n: int) | Operator(op: Binary) | NotSign | Tilde | LParen | RParen | Other

  datatype Expr = Num(n: int) | Paren(inner: Expr) | Pre(prefix: Prefix, arg: Expr)
      | Bin(op: Binary, left: Expr, right: Expr)

  /** The numbers of the tokens, wcc.h:399-490; they double as precedences. */
  function Code(op: Binary): nat {
    match op
    case Or => 50 case And => 51 case BitOr => 52 case Xor => 53 case BitAnd => 54 case Eq => 55 case Ne => 56
    case Lt => 57 case Gt => 58 case Le => 59 case Ge => 60 case Shl => 61 case Shr => 62
    case Add => 63 case Sub => 64 case Mul => 65 case Div => 66 case Mod => 67
  }

  const COMMA: nat := 36
  const EQ: nat := 37
  const INC: nat := 70
  const DOT: nat := 72

  function PrefixToken(p: Prefix): Token {
    match p
    case Plus => Operator(Add)
    case Minus => Operator(Sub)
    case Not => NotSign
    case Complement => Tilde
  }

  function Tokens(e: Expr): seq<Token> {
    match e
    case Num(n) => [Number(n)]
    case Paren(i) => [LParen] + Tokens(i) + [RParen]
    case Pre(p, a) => [PrefixToken(p)] + Tokens(a)
    case Bin(op, l, r) => Tokens(l) + [Operator(op)] + Tokens(r)
  }

  /** The level at which the right operand of each operator is parsed. */
  type Levels = Binary -> nat

  // The parser as a function

  type Parsed = Option<(Expr, seq<Token>)>

  function OperatorAt(ts: seq<Token>): Option<Binary> {
    if ts != [] && ts[0].Operator? then Some(ts[0].op) else None
  }

  /** The next operator is one that the loop at `level` takes. */
  predicate Takes(ts: seq<Token>, level: nat) {
    match OperatorAt(ts)
    case Some(op) => Code(op) >= level
    case None => false
  }

  function PrefixAt(ts: seq<Token>): Option<Prefix> {
    if ts == [] then None
    else match ts[0]
      case Operator(Add) => Some(Plus)
      case Operator(Sub) => Some(Minus)
      case NotSign => Some(Not)
      case Tilde => Some(Complement)
      case _ => None
  }

  function Parse(second: Levels, ts: seq<Token>, level: nat): (r: Parsed)
    ensures r.Some? ==> |r.value.1| < |ts|
    decreases |ts|, 1
  {
    match ParseOperand(second, ts)
    case Some((e, rest)) => Climb(second, e, rest, level)
    case None => None
  }

  function ParseOperand(second: Levels, ts: seq<Token>): (r: Parsed)
    ensures r.Some? ==> |r.value.1| < |ts|
    decreases |ts|, 0
  {
    match PrefixAt(ts)
    case Some(p) =>
      (match Parse(second, ts[1..], INC)
       case Some((a, rest)) => Some((Pre(p, a), rest))
       case None => None)
    case None =>
      if ts == [] then None
      else match ts[0]
        case Number(n) => Some((Num(n), ts[1..]))
        case LParen =>
          (match Parse(second, ts[1..], COMMA)
           case Some((i, rest)) => if rest != [] && rest[0] == RParen then Some((Paren(i), rest[1..])) else None
           case None => None)
        case _ => None
  }

  /** The loop that takes operators of at least `level`. */
  function Climb(second: Levels, e: Expr, ts: seq<Token>, level: nat): (r: Parsed)
    ensures r.Some? ==> |r.value.1| <= |ts|
    decreases |ts|, 2
  {
    if !Takes(ts, level) then Some((e, ts))
    else
      var op := ts[0].op;
      match Parse(second, ts[1..], second(op))
      case Some((r, rest)) => Climb(second, Bin(op, e, r), rest, level)
      case None => None
  }

  // Trees that the parser builds

  /** No operator is less than `level` on the way down to the leftmost operand. */
  ghost predicate LeftAtLeast(e: Expr, level: nat) {
    e.Bin? ==> Code(e.op) >= level && LeftAtLeast(e.left, level)
  }

  /** The operator at the start of `ts` is not taken by any operator on the way down to the rightmost operand of `e`. */
  ghost predicate Ends(second: Levels, e: Expr, ts: seq<Token>) {
    e.Bin? ==> !Takes(ts, second(e.op)) && Ends(second, e.right, ts)
  }

  ghost predicate Shaped(second: Levels, e: Expr) {
    match e
    case Num(_) => true
    case Paren(i) => Shaped(second, i)
    case Pre(_, a) => Shaped(second, a) && !a.Bin?
    case Bin(op, l, r) =>
      Shaped(second, l) && Shaped(second, r) && LeftAtLeast(r, second(op)) && Ends(second, l, [Operator(op)])
  }

  /** `ts` starts with the expression `e` at `level`, and goes on with `rest`, whose first token is no operator that
      `e`, or an expression at `level`, could take. */
  ghost predicate Derives(second: Levels, ts: seq<Token>, level: nat, e: Expr, rest: seq<Token>) {
    ts == Tokens(e) + rest && Shaped(second, e) && LeftAtLeast(e, level) && !Takes(rest, level) && Ends(second, e, rest)
  }

  lemma {:induction false} EndsByFirst(second: Levels, e: Expr, ts: seq<Token>, us: seq<Token>)
    requires OperatorAt(ts) == OperatorAt(us)
    ensures Ends(second, e, ts) == Ends(second, e, us)
  {
    if e.Bin? { EndsByFirst(second, e.right, ts, us); }
  }

  /** What the parser returns is derived. */
  lemma {:induction false} ParseSound(second: Levels, ts: seq<Token>, level: nat)
    ensures match Parse(second, ts, level)
            case Some((e, rest)) => Derives(second, ts, level, e, rest)
            case None => true
    decreases |ts|, 1
  {
    OperandSound(second, ts);
    match ParseOperand(second, ts)
    case Some((e, rest)) => ClimbSound(second, e, rest, level);
    case None =>
  }

  lemma NoOperatorAtInc(e: Expr)
    requires LeftAtLeast(e, INC)
    ensures !e.Bin?
  {
  }

  lemma {:induction false} OperandSound(second: Levels, ts: seq<Token>)
    ensures match ParseOperand(second, ts)
            case Some((e, rest)) => ts == Tokens(e) + rest && Shaped(second, e) && !e.Bin?
            case None => true
    decreases |ts|, 0
  {
    hide Climb, Code;
    if ts != [] {
      assert ts == [ts[0]] + ts[1..];
      if PrefixAt(ts).Some? {
        ParseSound(second, ts[1..], INC);
        if Parse(second, ts[1..], INC).Some? { NoOperatorAtInc(Parse(second, ts[1..], INC).value.0); }
      } else if ts[0] == LParen {
        ParseSound(second, ts[1..], COMMA);
      }
    }
  }

  /** Parsing an operand and then taking operators. */
  lemma ParseIsClimb(second: Levels, ts: seq<Token>, level: nat)
    ensures Parse(second, ts, level) ==
              match ParseOperand(second, ts)
              case Some((e, rest)) => Climb(second, e, rest, level)
              case None => None
  {
    hide Climb, ParseOperand;
  }

  /** Taking one operator. */
  lemma ClimbTakes(second: Levels, e: Expr, op: Binary, ts: seq<Token>, level: nat)
    requires Code(op) >= level
    ensures Climb(second, e, [Operator(op)] + ts, level) ==
              match Parse(second, ts, second(op))
              case Some((r, rest)) => Climb(second, Bin(op, e, r), rest, level)
              case None => None
  {
    hide Parse, Code;
    assert ([Operator(op)] + ts)[1..] == ts;
  }

  lemma ClimbStops(second: Levels, e: Expr, ts: seq<Token>, level: nat)
    requires !Takes(ts, level)
    ensures Climb(second, e, ts, level) == Some((e, ts))
  {
  }

  lemma {:induction false} ClimbSound(second: Levels, e: Expr, ts: seq<Token>, level: nat)
    requires Shaped(second, e) && LeftAtLeast(e, level) && Ends(second, e, ts)
    ensures match Climb(second, e, ts, level)
            case Some((f, rest)) =>
              Tokens(e) + ts == Tokens(f) + rest && Shaped(second, f) && LeftAtLeast(f, level) &&
                  !Takes(rest, level) && Ends(second, f, rest)
            case None => true
    decreases |ts|, 2
  {
    hide Parse, Climb, Code;
    if Takes(ts, level) {
      var op := ts[0].op;
      assert ts == [Operator(op)] + ts[1..];
      ClimbTakes(second, e, op, ts[1..], level);
      ParseSound(second, ts[1..], second(op));
      match Parse(second, ts[1..], second(op))
      case Some((r, rest)) =>
        EndsByFirst(second, e, ts, [Operator(op)]);
        ClimbSound(second, Bin(op, e, r), rest, level);
        assert Tokens(e) + ts == Tokens(Bin(op, e, r)) + rest;
      case None =>
    } else {
      ClimbStops(second, e, ts, level);
    }
  }

  /** The parser gets as far as any shaped tree. */
  lemma {:induction false} ParseReaches(second: Levels, e: Expr, rest: seq<Token>, level: nat)
    requires Shaped(second, e) && LeftAtLeast(e, level) && Ends(second, e, rest)
    ensures Parse(second, Tokens(e) + rest, level) == Climb(second, e, rest, level)
    decreases e
  {
    hide Parse, Climb, ParseOperand, Code, PrefixToken, PrefixAt;
    match e
    case Num(n) =>
      ReachNumber(second, n, rest, level);
    case Paren(i) =>
      var inside := [RParen] + rest;
      EndsNothing(second, i, inside);
      WeakestLevel(i);
      ParseReaches(second, i, inside, COMMA);
      ReachParen(second, i, rest, level);
    case Pre(p, a) =>
      ParseReaches(second, a, rest, INC);
      ReachPrefix(second, p, a, rest, level);
    case Bin(op, l, r) =>
      var after := [Operator(op)] + (Tokens(r) + rest);
      assert Tokens(e) + rest == Tokens(l) + after;
      EndsByFirst(second, l, after, [Operator(op)]);
      ParseReaches(second, l, after, level);
      ClimbTakes(second, l, op, Tokens(r) + rest, level);
      ParseReaches(second, r, rest, second(op));
      ClimbStops(second, r, rest, second(op));
  }

  lemma ReachNumber(second: Levels, n: int, rest: seq<Token>, level: nat)
    ensures Parse(second, Tokens(Num(n)) + rest, level) == Climb(second, Num(n), rest, level)
  {
    hide Climb, Code;
    assert (Tokens(Num(n)) + rest)[1..] == rest;
  }

  lemma ReachParen(second: Levels, i: Expr, rest: seq<Token>, level: nat)
    requires Parse(second, Tokens(i) + ([RParen] + rest), COMMA) == Climb(second, i, [RParen] + rest, COMMA)
    ensures Parse(second, Tokens(Paren(i)) + rest, level) == Climb(second, Paren(i), rest, level)
  {
    hide Climb, Code;
    ClimbStops(second, i, [RParen] + rest, COMMA);
    assert (Tokens(Paren(i)) + rest)[1..] == Tokens(i) + ([RParen] + rest);
    assert ([RParen] + rest)[1..] == rest;
  }

  lemma ReachPrefix(second: Levels, p: Prefix, a: Expr, rest: seq<Token>, level: nat)
    requires Parse(second, Tokens(a) + rest, INC) == Climb(second, a, rest, INC)
    ensures Parse(second, Tokens(Pre(p, a)) + rest, level) == Climb(second, Pre(p, a), rest, level)
  {
    hide Climb, Code, Takes, Tokens;
    ClimbStops(second, a, rest, INC) by { hide Parse, ParseOperand; NoneTakenAtInc(rest); }
    PrefixFirst(p, a, rest);
  }

  lemma NoneTakenAtInc(ts: seq<Token>)
    ensures !Takes(ts, INC)
  {
  }

  lemma PrefixFirst(p: Prefix, a: Expr, rest: seq<Token>)
    ensures var ts := Tokens(Pre(p, a)) + rest; PrefixAt(ts) == Some(p) && ts[1..] == Tokens(a) + rest
  {
    var ts := [PrefixToken(p)] + (Tokens(a) + rest);
    assert Tokens(Pre(p, a)) + rest == ts;
    hide Tokens;
    assert ts[0] == PrefixToken(p);
  }

  lemma {:induction false} EndsNothing(second: Levels, e: Expr, ts: seq<Token>)
    requires OperatorAt(ts) == None
    ensures Ends(second, e, ts)
  {
    if e.Bin? { EndsNothing(second, e.right, ts); }
  }

  lemma {:induction false} WeakestLevel(e: Expr)
    ensures LeftAtLeast(e, COMMA)
  {
    if e.Bin? { WeakestLevel(e.left); }
  }

  /** The parser returns exactly what is derived; so there is at most one derivation. */
  lemma ParseExactly(second: Levels, ts: seq<Token>, level: nat, e: Expr, rest: seq<Token>)
    ensures Parse(second, ts, level) == Some((e, rest)) <==> Derives(second, ts, level, e, rest)
  {
    ParseSound(second, ts, level);
    if Derives(second, ts, level, e, rest) { ParseReaches(second, e, rest, level); }
  }

  lemma DerivationIsUnique(second: Levels, ts: seq<Token>, level: nat, e: Expr, rest: seq<Token>, f: Expr,
                           more: seq<Token>)
    requires Derives(second, ts, level, e, rest) && Derives(second, ts, level, f, more)
    ensures e == f && rest == more
  {
    ParseExactly(second, ts, level, e, rest);
    ParseExactly(second, ts, level, f, more);
  }

  /** No expression at the level that the tokens start with is longer than what the parser consumes. */
  lemma {:induction false} ParseGoesAsFar(second: Levels, f: Expr, more: seq<Token>, level: nat)
    requires Shaped(second, f) && LeftAtLeast(f, level)
    ensures match Parse(second, Tokens(f) + more, level)
            case Some((_, rest)) => |rest| <= |more|
            case None => true
    decreases f
  {
    hide Parse, Climb, Code, Takes;
    if f.Bin? {
      var after := [Operator(f.op)] + (Tokens(f.right) + more);
      assert Tokens(f) + more == Tokens(f.left) + after;
      EndsByFirst(second, f.left, after, [Operator(f.op)]);
      ParseReaches(second, f.left, after, level);
      ClimbTakes(second, f.left, f.op, Tokens(f.right) + more, level);
      ParseGoesAsFar(second, f.right, more, second(f.op));
    } else {
      ParseReaches(second, f, more, level);
    }
  }

  /** What the parser returns is the longest expression at the level that the tokens start with. */
  lemma ParseIsLongest(second: Levels, ts: seq<Token>, level: nat, e: Expr, rest: seq<Token>, f: Expr, more: seq<Token>)
    requires Parse(second, ts, level) == Some((e, rest))
    requires ts == Tokens(f) + more && Shaped(second, f) && LeftAtLeast(f, level)
    ensures ts == Tokens(e) + rest && |Tokens(f)| <= |Tokens(e)|
  {
    hide Parse, Shaped, LeftAtLeast;
    ParseSound(second, ts, level);
    ParseGoesAsFar(second, f, more, level);
  }

  /** An operator that the expression, or the level, would take, and that has no right operand after it, makes parsing
      fail, although an expression comes before it. */
  lemma {:induction false} MissingOperandFails(second: Levels, e: Expr, op: Binary, rest: seq<Token>, level: nat)
    requires Shaped(second, e) && LeftAtLeast(e, level) && ParseOperand(second, rest) == None
    requires Code(op) >= level || !Ends(second, e, [Operator(op)])
    ensures Parse(second, Tokens(e) + ([Operator(op)] + rest), level) == None
    decreases e
  {
    hide Parse, Climb, Code, ParseOperand;
    var more := [Operator(op)] + rest;
    if Ends(second, e, [Operator(op)]) {
      EndsByFirst(second, e, more, [Operator(op)]);
      ParseReaches(second, e, more, level);
      ClimbTakes(second, e, op, rest, level);
      NoOperandNoTree(second, rest, second(op));
    } else {
      var after := [Operator(e.op)] + (Tokens(e.right) + more);
      assert Tokens(e) + more == Tokens(e.left) + after;
      EndsByFirst(second, e.left, after, [Operator(e.op)]);
      ParseReaches(second, e.left, after, level);
      ClimbTakes(second, e.left, e.op, Tokens(e.right) + more, level);
      MissingOperandFails(second, e.right, op, rest, second(e.op));
    }
  }

  lemma NoOperandNoTree(second: Levels, ts: seq<Token>, level: nat)
    requires ParseOperand(second, ts) == None
    ensures Parse(second, ts, level) == None
  {
  }
}
