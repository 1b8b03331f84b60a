/** Expansion of object-like macros with hide sets (cpp.c:1055-1155, 1228-1356). */
module Macros {
  import opened Basics

  type Name = string

  /** Tokens without a string, such as line ends, are `Bare`; `Paste` is the operator ##. */
  datatype Kind = Word | Paste | Bare

  datatype Token = Token(kind: Kind, str: Name, hide: set<Name>)

  type Table = map<Name, seq<Token>>

  /** Replacement lists hold no hidden names, and no ## stands at the start or at the end of one. */
  ghost predicate Valid(table: Table) {
    forall name | name in table ::
      && PastesOk(table[name]) && (table[name] != [] ==> table[name][0].kind != Paste)
      && forall i | 0 <= i < |table[name]| :: table[name][i].hide == {}
  }

  ghost predicate PastesOk(body: seq<Token>) {
    body == [] || (if body[0].kind == Paste then |body| >= 2 && PastesOk(body[2..]) else PastesOk(body[1..]))
  }

  predicate IsMacro(table: Table, tok: Token) {
    tok.kind != Bare && tok.str in table
  }

  /** A macro name that may still be expanded. */
  predicate Expandable(table: Table, tok: Token) {
    IsMacro(table, tok) && tok.str !in tok.hide
  }

  // Substitution

  /** Join the token to the last of `os`. */
  function Glue(os: seq<Token>, tok: Token): seq<Token> {
    if os == [] then [tok]
    else
      var last := os[|os| - 1];
      os[..|os| - 1] + [Token(Word, last.str + tok.str, last.hide * tok.hide)]
  }

  function HsAdd(hs: set<Name>, ts: seq<Token>): (r: seq<Token>)
    ensures |r| == |ts| && forall i | 0 <= i < |ts| :: r[i] == ts[i].(hide := ts[i].hide + hs)
  {
    if ts == [] then [] else [ts[0].(hide := ts[0].hide + hs)] + HsAdd(hs, ts[1..])
  }

  function Subst(body: seq<Token>, hs: set<Name>, os: seq<Token>): (r: seq<Token>)
    requires PastesOk(body)
    ensures |r| <= |os| + |body|
  {
    if body == [] then HsAdd(hs, os)
    else if body[0].kind == Paste then Subst(body[2..], hs, Glue(os, body[1]))
    else Subst(body[1..], hs, os + [body[0]])
  }

  /** Every token that substitution produces hides `hs`. */
  lemma {:induction false} SubstHides(body: seq<Token>, hs: set<Name>, os: seq<Token>)
    requires PastesOk(body)
    ensures forall i | 0 <= i < |Subst(body, hs, os)| :: hs <= Subst(body, hs, os)[i].hide
  {
    if body != [] {
      if body[0].kind == Paste {
        SubstHides(body[2..], hs, Glue(os, body[1]));
      } else {
        SubstHides(body[1..], hs, os + [body[0]]);
      }
    }
  }

  /** The replacement for a macro name. */
  function Replacement(table: Table, tok: Token): seq<Token>
    requires Valid(table) && IsMacro(table, tok)
  {
    Subst(table[tok.str], tok.hide + {tok.str}, [])
  }

  // The measure

  ghost function Longest(table: Table): (m: nat)
    ensures forall name | name in table :: |table[name]| <= m
  {
    LongestOf(table, table.Keys)
  }

  ghost function LongestOf(table: Table, names: set<Name>): (m: nat)
    requires names <= table.Keys
    ensures forall name | name in names :: |table[name]| <= m
  {
    if names == {} then 0
    else
      var name :| name in names;
      var rest := LongestOf(table, names - {name});
      if |table[name]| > rest then |table[name]| else rest
  }

  function Pow(b: nat, e: nat): nat {
    if e == 0 then 1 else b * Pow(b, e - 1)
  }

  lemma {:induction false} PowPositive(b: nat, e: nat)
    requires b > 0
    ensures Pow(b, e) > 0
  {
    if e > 0 { PowPositive(b, e - 1); }
  }

  lemma {:induction false} PowMonotone(b: nat, d: nat, e: nat)
    requires b > 0 && d <= e
    ensures Pow(b, d) <= Pow(b, e)
  {
    if d < e {
      PowMonotone(b, d, e - 1);
      AtLeastOnce(b, Pow(b, e - 1));
    }
  }

  lemma AtLeastOnce(b: nat, p: nat)
    requires b > 0
    ensures p <= b * p
  {
    OneMore(b - 1, p);
  }

  /** The names that a token does not hide yet. */
  ghost function Unhidden(table: Table, tok: Token): nat {
    |table.Keys - tok.hide|
  }

  ghost function TokenWeight(table: Table, tok: Token): nat {
    Pow(Longest(table) + 1, Unhidden(table, tok))
  }

  ghost function Weight(table: Table, ts: seq<Token>): nat {
    if ts == [] then 0 else TokenWeight(table, ts[0]) + Weight(table, ts[1..])
  }

  lemma {:induction false} WeightSum(table: Table, a: seq<Token>, b: seq<Token>)
    ensures Weight(table, a + b) == Weight(table, a) + Weight(table, b)
  {
    if a == [] {
      assert a + b == b;
    } else {
      assert (a + b)[1..] == a[1..] + b;
      WeightSum(table, a[1..], b);
    }
  }

  lemma {:induction false} WeightBound(table: Table, ts: seq<Token>, w: nat)
    requires forall i | 0 <= i < |ts| :: TokenWeight(table, ts[i]) <= w
    ensures Weight(table, ts) <= |ts| * w
  {
    hide TokenWeight;
    if ts != [] {
      WeightBound(table, ts[1..], w);
      OneMore(|ts| - 1, w);
    }
  }

  /** Hiding one more name makes a token lighter. */
  lemma HidingReduces(table: Table, tok: Token, name: Name, other: Token)
    requires name in table && name !in tok.hide && tok.hide + {name} <= other.hide
    ensures Unhidden(table, other) < Unhidden(table, tok)
  {
    assert table.Keys - other.hide <= (table.Keys - tok.hide) - {name};
    SmallerSet(table.Keys - other.hide, (table.Keys - tok.hide) - {name});
  }

  lemma SmallerSet<T>(a: set<T>, b: set<T>)
    requires a <= b
    ensures |a| <= |b|
  {
    assert b == a + (b - a);
  }

  lemma ReplacementHides(table: Table, tok: Token)
    requires Valid(table) && IsMacro(table, tok)
    ensures |Replacement(table, tok)| <= Longest(table)
    ensures forall i | 0 <= i < |Replacement(table, tok)| :: tok.hide + {tok.str} <= Replacement(table, tok)[i].hide
  {
    SubstHides(table[tok.str], tok.hide + {tok.str}, []);
  }

  /** A macro weighs more than its replacement. */
  lemma ReplacementIsLighter(table: Table, tok: Token)
    requires Valid(table) && Expandable(table, tok)
    ensures Weight(table, Replacement(table, tok)) < TokenWeight(table, tok)
  {
    hide Pow, Longest, Replacement, Weight, Unhidden;
    var r, m, u := Replacement(table, tok), Longest(table), Unhidden(table, tok);
    ReplacementHides(table, tok);
    SomeUnhidden(table, tok);
    forall i | 0 <= i < |r| ensures TokenWeight(table, r[i]) <= Pow(m + 1, u - 1) {
      HidingReduces(table, tok, tok.str, r[i]);
      PowMonotone(m + 1, Unhidden(table, r[i]), u - 1);
    }
    WeightBound(table, r, Pow(m + 1, u - 1));
    PowPositive(m + 1, u - 1);
    MulLess(|r|, m, Pow(m + 1, u - 1));
    PowStep(m + 1, u);
  }

  lemma SomeUnhidden(table: Table, tok: Token)
    requires Expandable(table, tok)
    ensures Unhidden(table, tok) > 0
  {
    assert tok.str in table.Keys - tok.hide;
  }

  lemma PowStep(b: nat, e: nat)
    requires e > 0
    ensures Pow(b, e) == b * Pow(b, e - 1)
  {
  }

  lemma MulLess(a: nat, m: nat, p: nat)
    requires a <= m && p > 0
    ensures a * p < (m + 1) * p
  {
    OneMore(m, p);
    assert (m - a) * p >= 0;
    assert m * p == a * p + (m - a) * p;
  }

  // Expansion

  /** The expansion of a token sequence. It is total: every recursive call is on a lighter sequence. */
  function Expand(table: Table, ts: seq<Token>): seq<Token>
    requires Valid(table)
    decreases Weight(table, ts)
  {
    if ts == [] then []
    else if Expandable(table, ts[0]) then
      MacroDecreases(table, ts);
      Expand(table, Replacement(table, ts[0]) + ts[1..])
    else
      TokenDecreases(table, ts);
      [ts[0]] + Expand(table, ts[1..])
  }

  lemma MacroDecreases(table: Table, ts: seq<Token>)
    requires Valid(table) && ts != [] && Expandable(table, ts[0])
    ensures Weight(table, Replacement(table, ts[0]) + ts[1..]) < Weight(table, ts)
  {
    ReplacementIsLighter(table, ts[0]);
    WeightSum(table, Replacement(table, ts[0]), ts[1..]);
  }

  lemma TokenDecreases(table: Table, ts: seq<Token>)
    requires ts != []
    ensures Weight(table, ts[1..]) < Weight(table, ts)
  {
    PowPositive(Longest(table) + 1, Unhidden(table, ts[0]));
  }

  // What expansion achieves

  ghost predicate NoneExpandable(table: Table, ts: seq<Token>) {
    forall i | 0 <= i < |ts| :: !Expandable(table, ts[i])
  }

  /** A token naming a macro that comes out is in its own hide set. */
  lemma {:induction false} NothingLeftToExpand(table: Table, ts: seq<Token>)
    requires Valid(table)
    ensures NoneExpandable(table, Expand(table, ts))
    decreases Weight(table, ts)
  {
    hide Replacement, Weight;
    if ts != [] {
      if Expandable(table, ts[0]) {
        MacroDecreases(table, ts);
        NothingLeftToExpand(table, Replacement(table, ts[0]) + ts[1..]);
      } else {
        TokenDecreases(table, ts);
        NothingLeftToExpand(table, ts[1..]);
      }
    }
  }

  /** Sequences without expandable names stay as they are; so expanding twice is expanding once. */
  lemma {:induction false} ExpandNothing(table: Table, ts: seq<Token>)
    requires Valid(table) && NoneExpandable(table, ts)
    ensures Expand(table, ts) == ts
  {
    if ts != [] {
      assert !Expandable(table, ts[0]);
      ExpandNothing(table, ts[1..]);
    }
  }

  lemma ExpandTwice(table: Table, ts: seq<Token>)
    requires Valid(table)
    ensures Expand(table, Expand(table, ts)) == Expand(table, ts)
  {
    NothingLeftToExpand(table, ts);
    ExpandNothing(table, Expand(table, ts));
  }

  /** What follows does not influence the expansion of what comes before. */
  lemma {:induction false} ExpandConcat(table: Table, a: seq<Token>, b: seq<Token>)
    requires Valid(table)
    ensures Expand(table, a + b) == Expand(table, a) + Expand(table, b)
    decreases Weight(table, a)
  {
    hide Replacement, Weight;
    if a == [] {
      assert a + b == b;
    } else {
      assert (a + b)[0] == a[0] && (a + b)[1..] == a[1..] + b;
      if Expandable(table, a[0]) {
        MacroDecreases(table, a);
        var r := Replacement(table, a[0]);
        assert r + (a[1..] + b) == (r + a[1..]) + b;
        ExpandConcat(table, r + a[1..], b);
      } else {
        TokenDecreases(table, a);
        ExpandConcat(table, a[1..], b);
      }
    }
  }

  // Rewriting in any order

  /** `us` is `ts` with the expandable name at `i` replaced. */
  ghost predicate Rewrites(table: Table, ts: seq<Token>, i: nat, us: seq<Token>)
    requires Valid(table)
  {
    i < |ts| && Expandable(table, ts[i]) && us == ts[..i] + Replacement(table, ts[i]) + ts[i + 1..]
  }

  ghost predicate RewritesSomewhere(table: Table, ts: seq<Token>, us: seq<Token>)
    requires Valid(table)
  {
    exists i: nat :: Rewrites(table, ts, i, us)
  }

  /** A chain of rewriting steps from the first sequence to the last. */
  ghost predicate RewriteChain(table: Table, chain: seq<seq<Token>>)
    requires Valid(table)
  {
    |chain| > 0 && forall k | 0 < k < |chain| :: RewritesSomewhere(table, chain[k - 1], chain[k])
  }

  lemma RewriteKeepsExpansion(table: Table, ts: seq<Token>, i: nat, us: seq<Token>)
    requires Valid(table) && Rewrites(table, ts, i, us)
    ensures Expand(table, us) == Expand(table, ts)
  {
    hide Replacement;
    var a, r, b := ts[..i], Replacement(table, ts[i]), ts[i + 1..];
    assert ts == a + ([ts[i]] + b) && us == a + (r + b);
    ExpandConcat(table, a, [ts[i]] + b);
    ExpandConcat(table, a, r + b);
    ExpandOne(table, ts[i], b);
  }

  lemma ExpandOne(table: Table, tok: Token, b: seq<Token>)
    requires Valid(table) && Expandable(table, tok)
    ensures Expand(table, [tok] + b) == Expand(table, Replacement(table, tok) + b)
  {
    hide Replacement;
    assert ([tok] + b)[1..] == b;
  }

  /** Replacing expandable names in any order until none is left gives the expansion. */
  lemma {:induction false} AnyOrderGivesExpansion(table: Table, chain: seq<seq<Token>>)
    requires Valid(table) && RewriteChain(table, chain)
    requires NoneExpandable(table, chain[|chain| - 1])
    ensures chain[|chain| - 1] == Expand(table, chain[0])
  {
    ChainKeepsExpansion(table, chain, |chain| - 1);
    ExpandNothing(table, chain[|chain| - 1]);
  }

  lemma {:induction false} ChainKeepsExpansion(table: Table, chain: seq<seq<Token>>, k: nat)
    requires Valid(table) && RewriteChain(table, chain) && k < |chain|
    ensures Expand(table, chain[k]) == Expand(table, chain[0])
  {
    if k > 0 {
      ChainKeepsExpansion(table, chain, k - 1);
      assert RewritesSomewhere(table, chain[k - 1], chain[k]);
      var i: nat :| Rewrites(table, chain[k - 1], i, chain[k]);
      RewriteKeepsExpansion(table, chain[k - 1], i, chain[k]);
    }
  }

  // The function as it runs

  /** Expand, after copying the leading tokens that name no macro in a loop. */
  method ExpandTokens(table: Table, tokens: seq<Token>) returns (result: seq<Token>)
    requires Valid(table)
    ensures result == Expand(table, tokens)
    decreases Weight(table, tokens)
  {
    hide Replacement, Weight;
    if tokens == [] { return []; }
    var left: seq<Token> := [];
    var i := 0;
    while i < |tokens| && tokens[i].kind != Bare && tokens[i].str !in table
      invariant i <= |tokens| && left == tokens[..i] && forall k | 0 <= k < i :: !IsMacro(table, tokens[k])
    {
      left := left + [tokens[i]];
      i := i + 1;
    }
    assert tokens == left + tokens[i..];
    ExpandNothing(table, left);
    ExpandConcat(table, left, tokens[i..]);
    if left != [] {
      if i == |tokens| { return left; }
      SuffixDecreases(table, tokens, i);
      var rest := ExpandTokens(table, tokens[i..]);
      return left + rest;
    }
    var tok := tokens[0];
    if tok.kind != Bare && tok.str in tok.hide {
      if |tokens| == 1 { return tokens; }
      TokenDecreases(table, tokens);
      var rest := ExpandTokens(table, tokens[1..]);
      return [tok] + rest;
    }
    if IsMacro(table, tok) {
      var os := new TokenList();
      var substituted := SubstTokens(table[tok.str], tok.hide + {tok.str}, os);
      ReplacementIs(table, tok, substituted.tokens);
      MacroDecreases(table, tokens);
      result := ExpandTokens(table, substituted.tokens + tokens[1..]);
      return;
    }
    TokenDecreases(table, tokens);
    var rest := ExpandTokens(table, tokens[1..]);
    return [tok] + rest;
  }

  lemma ReplacementIs(table: Table, tok: Token, r: seq<Token>)
    requires Valid(table) && IsMacro(table, tok) && r == Subst(table[tok.str], tok.hide + {tok.str}, [])
    ensures r == Replacement(table, tok)
  {
  }

  lemma SuffixDecreases(table: Table, ts: seq<Token>, i: nat)
    requires 0 < i <= |ts|
    ensures Weight(table, ts[i..]) < Weight(table, ts)
  {
    hide Weight;
    assert ts == ts[..i] + ts[i..];
    WeightSum(table, ts[..i], ts[i..]);
    WeightPositive(table, ts[..i]);
  }

  lemma WeightPositive(table: Table, ts: seq<Token>)
    requires ts != []
    ensures Weight(table, ts) > 0
  {
    TokenDecreases(table, ts);
  }

  /** An output list, which is appended to and whose last token is changed in place. */
  class TokenList {
    var tokens: seq<Token>

    constructor ()
      ensures tokens == []
    {
      tokens := [];
    }

    method Append(tok: Token)
      modifies this
      ensures tokens == old(tokens) + [tok]
    {
      tokens := tokens + [tok];
    }

    /** Join a token to the last one: only that one changes. */
    method GlueOn(tok: Token)
      modifies this
      ensures |tokens| == if old(tokens) == [] then 1 else |old(tokens)|
      ensures forall i | 0 <= i < |tokens| - 1 :: tokens[i] == old(tokens)[i]
      ensures tokens == Glue(old(tokens), tok)
    {
      if tokens == [] {
        tokens := [tok];
      } else {
        var last := |tokens| - 1;
        tokens := tokens[last := Token(Word, tokens[last].str + tok.str, tokens[last].hide * tok.hide)];
      }
    }
  }

  /** A new list of copies that hide `hs` as well; the list itself stays as it is. */
  method HsAddTo(hs: set<Name>, ts: TokenList) returns (r: TokenList)
    ensures fresh(r) && r.tokens == HsAdd(hs, ts.tokens)
  {
    r := new TokenList();
    for k := 0 to |ts.tokens|
      invariant fresh(r) && |r.tokens| == k
      invariant forall i | 0 <= i < k :: r.tokens[i] == ts.tokens[i].(hide := ts.tokens[i].hide + hs)
    {
      r.Append(ts.tokens[k].(hide := ts.tokens[k].hide + hs));
    }
  }

  /** Substitution without parameters: each token of the body is appended to the output list or glued on its last
      token, and in the end the output is copied with the hide set added. */
  method SubstTokens(body: seq<Token>, hs: set<Name>, os: TokenList) returns (r: TokenList)
    requires PastesOk(body)
    modifies os
    ensures fresh(r) && r.tokens == Subst(body, hs, old(os.tokens))
  {
    if body == [] {
      r := HsAddTo(hs, os);
    } else if body[0].kind == Paste {
      os.GlueOn(body[1]);
      r := SubstTokens(body[2..], hs, os);
    } else {
      os.Append(body[0]);
      r := SubstTokens(body[1..], hs, os);
    }
  }

  // What substitution spells

  function Spelling(ts: seq<Token>): string {
    if ts == [] then "" else ts[0].str + Spelling(ts[1..])
  }

  /** What is left of a body without its paste operators. */
  function Operands(body: seq<Token>): seq<Token>
    requires PastesOk(body)
  {
    if body == [] then []
    else if body[0].kind == Paste then [body[1]] + Operands(body[2..])
    else [body[0]] + Operands(body[1..])
  }

  /** The tokens that start a token of the result: those not glued on. */
  function Starts(body: seq<Token>, first: bool): nat
    requires PastesOk(body)
  {
    if body == [] then 0
    else if body[0].kind == Paste then Starts(body[2..], false) + (if first then 1 else 0)
    else 1 + Starts(body[1..], false)
  }

  lemma {:induction false} SpellingConcat(a: seq<Token>, b: seq<Token>)
    ensures Spelling(a + b) == Spelling(a) + Spelling(b)
  {
    if a == [] {
      assert a + b == b;
    } else {
      assert (a + b)[1..] == a[1..] + b;
      SpellingConcat(a[1..], b);
    }
  }

  lemma {:induction false} HsAddSpells(hs: set<Name>, ts: seq<Token>)
    ensures Spelling(HsAdd(hs, ts)) == Spelling(ts)
  {
    if ts != [] {
      HsAddSpells(hs, ts[1..]);
      assert HsAdd(hs, ts)[1..] == HsAdd(hs, ts[1..]);
    }
  }

  lemma GlueSpells(os: seq<Token>, tok: Token)
    ensures Spelling(Glue(os, tok)) == Spelling(os) + tok.str
    ensures |Glue(os, tok)| == if os == [] then 1 else |os|
  {
    assert [tok][1..] == [];
    if os != [] {
      var front, last := os[..|os| - 1], os[|os| - 1];
      var joined := Token(Word, last.str + tok.str, last.hide * tok.hide);
      assert os == front + [last];
      SpellingConcat(front, [last]);
      SpellingConcat(front, [joined]);
      assert [last][1..] == [] && [joined][1..] == [];
    }
  }

  /** Gluing moves no character: the result spells what was there and then the body without its paste operators. */
  lemma {:induction false} SubstSpells(body: seq<Token>, hs: set<Name>, os: seq<Token>)
    requires PastesOk(body)
    ensures Spelling(Subst(body, hs, os)) == Spelling(os) + Spelling(Operands(body))
  {
    hide Spelling, Glue;
    NothingSpelled();
    if body == [] {
      HsAddSpells(hs, os);
    } else if body[0].kind == Paste {
      SubstSpells(body[2..], hs, Glue(os, body[1]));
      GlueSpells(os, body[1]);
      SpellsFirst(body[1], Operands(body[2..]));
      Regroup(Spelling(os), body[1].str, Spelling(Operands(body[2..])));
    } else {
      SubstSpells(body[1..], hs, os + [body[0]]);
      SpellingConcat(os, [body[0]]);
      SpellsFirst(body[0], Operands(body[1..]));
      SpellsOne(body[0]);
      Regroup(Spelling(os), body[0].str, Spelling(Operands(body[1..])));
    }
  }

  lemma Regroup(a: string, b: string, c: string)
    ensures (a + b) + c == a + (b + c)
  {
  }

  lemma SpellsOne(tok: Token)
    ensures Spelling([tok]) == tok.str
  {
    assert [tok][1..] == [];
  }

  /** The result has as many more tokens as the body has that are not glued on. */
  lemma {:induction false} SubstLength(body: seq<Token>, hs: set<Name>, os: seq<Token>)
    requires PastesOk(body)
    ensures |Subst(body, hs, os)| == |os| + Starts(body, os == [])
  {
    hide Glue;
    if body != [] {
      if body[0].kind == Paste {
        SubstLength(body[2..], hs, Glue(os, body[1]));
        GlueSpells(os, body[1]);
      } else {
        SubstLength(body[1..], hs, os + [body[0]]);
      }
    }
  }

  lemma NothingSpelled()
    ensures Spelling([]) == ""
  {
  }

  lemma SpellsFirst(tok: Token, ts: seq<Token>)
    ensures Spelling([tok] + ts) == tok.str + Spelling(ts)
  {
    assert ([tok] + ts)[1..] == ts;
  }

  // What a replacement is, group by group

  /** The tokens pasted on the one before `body`. */
  function Pasted(body: seq<Token>): (r: seq<Token>)
    requires PastesOk(body)
  {
    if body == [] || body[0].kind != Paste then [] else [body[1]] + Pasted(body[2..])
  }

  /** What comes after these. */
  function AfterPasted(body: seq<Token>): (r: seq<Token>)
    requires PastesOk(body)
    ensures PastesOk(r) && |r| <= |body| && (r != [] ==> r[0].kind != Paste)
  {
    if body == [] || body[0].kind != Paste then body else AfterPasted(body[2..])
  }

  /** The token with the strings of others appended; it is an ordinary word then. */
  function Joined(tok: Token, pasted: seq<Token>): Token {
    if pasted == [] then tok else Token(Word, tok.str + Spelling(pasted), tok.hide)
  }

  /** A body as it should come out: every token with what is pasted on it, all hiding exactly `hs`. */
  function Groups(body: seq<Token>, hs: set<Name>): seq<Token>
    requires PastesOk(body) && (body != [] ==> body[0].kind != Paste)
    decreases |body|
  {
    if body == [] then []
    else [Joined(body[0], Pasted(body[1..])).(hide := hs)] + Groups(AfterPasted(body[1..]), hs)
  }

  ghost predicate NothingHidden(ts: seq<Token>) {
    forall i | 0 <= i < |ts| :: ts[i].hide == {}
  }

  lemma GlueJoins(front: seq<Token>, tok: Token, pasted: seq<Token>, next: Token)
    requires tok.hide == {} && next.hide == {}
    ensures Glue(front + [Joined(tok, pasted)], next) == front + [Joined(tok, pasted + [next])]
  {
    var os := front + [Joined(tok, pasted)];
    assert os[..|os| - 1] == front;
    SpellingConcat(pasted, [next]);
    SpellsOne(next);
    if pasted == [] { assert pasted + [next] == [next]; }
    var last, longer := Joined(tok, pasted), Joined(tok, pasted + [next]);
    assert os[|os| - 1] == last && last.hide * next.hide == {};
    assert (tok.str + Spelling(pasted)) + next.str == tok.str + (Spelling(pasted) + next.str);
    assert longer == Token(Word, last.str + next.str, last.hide * next.hide);
  }

  lemma HsAddConcat(hs: set<Name>, a: seq<Token>, b: seq<Token>)
    ensures HsAdd(hs, a + b) == HsAdd(hs, a) + HsAdd(hs, b)
  {
  }

  lemma HsAddOne(hs: set<Name>, tok: Token)
    requires tok.hide == {}
    ensures HsAdd(hs, [tok]) == [tok.(hide := hs)]
  {
    assert tok.hide + hs == hs;
  }

  /** With the token `tok` and what was pasted on it so far at the end of the output, substitution goes on pasting and
      then makes the other groups. */
  lemma {:induction false} SubstMakesGroups(body: seq<Token>, hs: set<Name>, front: seq<Token>, tok: Token,
                                            pasted: seq<Token>)
    requires PastesOk(body) && NothingHidden(body) && tok.hide == {}
    ensures Subst(body, hs, front + [Joined(tok, pasted)]) ==
            HsAdd(hs, front) + [Joined(tok, pasted + Pasted(body)).(hide := hs)] + Groups(AfterPasted(body), hs)
  {
    hide HsAdd, Glue, Joined, Spelling, Subst, Groups, Pasted, AfterPasted;
    var last := Joined(tok, pasted);
    JoinedHides(tok, pasted);
    HsAddConcat(hs, front, [last]);
    HsAddOne(hs, last);
    if body == [] {
      BodyEnds(hs, front + [last]);
      assert pasted + [] == pasted;
      assert HsAdd(hs, front) + [last.(hide := hs)] + [] == HsAdd(hs, front) + [last.(hide := hs)];
    } else if body[0].kind == Paste {
      BodyPastes(body, hs, front + [last]);
      GlueJoins(front, tok, pasted, body[1]);
      SubstMakesGroups(body[2..], hs, front, tok, pasted + [body[1]]);
      assert pasted + [body[1]] + Pasted(body[2..]) == pasted + Pasted(body);
    } else {
      BodyGoesOn(body, hs, front + [last]);
      NothingJoined(body[0]);
      SubstMakesGroups(body[1..], hs, front + [last], body[0], []);
      assert pasted + [] == pasted && [] + Pasted(body[1..]) == Pasted(body[1..]);
      Shift(HsAdd(hs, front), last.(hide := hs), Joined(body[0], Pasted(body[1..])).(hide := hs),
            Groups(AfterPasted(body[1..]), hs));
    }
  }

  lemma Shift<T>(a: seq<T>, x: T, y: T, b: seq<T>)
    ensures (a + [x]) + [y] + b == a + [x] + ([y] + b)
  {
  }

  lemma BodyEnds(hs: set<Name>, os: seq<Token>)
    ensures PastesOk([]) && Subst([], hs, os) == HsAdd(hs, os) && Pasted([]) == [] && AfterPasted([]) == []
      && Groups([], hs) == []
  {
  }

  lemma BodyPastes(body: seq<Token>, hs: set<Name>, os: seq<Token>)
    requires PastesOk(body) && body != [] && body[0].kind == Paste
    ensures |body| >= 2 && PastesOk(body[2..]) && Subst(body, hs, os) == Subst(body[2..], hs, Glue(os, body[1]))
      && Pasted(body) == [body[1]] + Pasted(body[2..]) && AfterPasted(body) == AfterPasted(body[2..])
  {
    hide Glue;
  }

  lemma BodyGoesOn(body: seq<Token>, hs: set<Name>, os: seq<Token>)
    requires PastesOk(body) && body != [] && body[0].kind != Paste
    ensures PastesOk(body[1..]) && Subst(body, hs, os) == Subst(body[1..], hs, os + [body[0]])
      && Pasted(body) == [] && AfterPasted(body) == body
      && Groups(body, hs) == [Joined(body[0], Pasted(body[1..])).(hide := hs)] + Groups(AfterPasted(body[1..]), hs)
  {
    hide Joined;
  }

  lemma NothingJoined(tok: Token)
    ensures Joined(tok, []) == tok
  {
  }

  lemma JoinedHides(tok: Token, pasted: seq<Token>)
    ensures Joined(tok, pasted).hide == tok.hide
  {
  }

  /** The replacement of a macro name is its body group by group: each token hides the names that the macro name hid and
      the macro itself, and no others. */
  lemma ReplacementIsGroups(table: Table, tok: Token)
    requires Valid(table) && IsMacro(table, tok)
    ensures PastesOk(table[tok.str]) && Replacement(table, tok) == Groups(table[tok.str], tok.hide + {tok.str})
    ensures forall i | 0 <= i < |Replacement(table, tok)| :: Replacement(table, tok)[i].hide == tok.hide + {tok.str}
  {
    var body, hs := table[tok.str], tok.hide + {tok.str};
    WholeBody(body, hs);
    GroupsHide(body, hs);
  }

  lemma WholeBody(body: seq<Token>, hs: set<Name>)
    requires PastesOk(body) && NothingHidden(body) && (body != [] ==> body[0].kind != Paste)
    ensures Subst(body, hs, []) == Groups(body, hs)
  {
    hide HsAdd, Joined, Subst, Groups, Pasted, AfterPasted, PastesOk;
    if body == [] {
      BodyEnds(hs, []);
      assert HsAdd(hs, []) == [];
    } else {
      BodyGoesOn(body, hs, []);
      NothingJoined(body[0]);
      assert [] + [body[0]] == [body[0]];
      SubstMakesGroups(body[1..], hs, [], body[0], []);
      var first := Joined(body[0], Pasted(body[1..])).(hide := hs);
      assert [] + Pasted(body[1..]) == Pasted(body[1..]) && HsAdd(hs, []) == [] && [] + [first] == [first];
    }
  }

  lemma {:induction false} GroupsHide(body: seq<Token>, hs: set<Name>)
    requires PastesOk(body) && (body != [] ==> body[0].kind != Paste)
    ensures forall i | 0 <= i < |Groups(body, hs)| :: Groups(body, hs)[i].hide == hs
    decreases |body|
  {
    hide Joined;
    if body != [] { GroupsHide(AfterPasted(body[1..]), hs); }
  }

  // What comes of the names inside a body

  /** Without paste operators the replacement is the body, each token hiding just these names. */
  lemma {:induction false} GroupsWithoutPastes(body: seq<Token>, hs: set<Name>)
    requires PastesOk(body) && forall i | 0 <= i < |body| :: body[i].kind != Paste
    ensures |Groups(body, hs)| == |body| && forall i | 0 <= i < |body| :: Groups(body, hs)[i] == body[i].(hide := hs)
  {
    if body != [] {
      assert AfterPasted(body[1..]) == body[1..];
      GroupsWithoutPastes(body[1..], hs);
    }
  }

  /** A macro name expands to what the groups of its body expand to, one after the other; so a group that names a macro
      not yet hidden is replaced in turn. */
  lemma NameInBodyExpands(table: Table, tok: Token, i: nat)
    requires Valid(table) && Expandable(table, tok) && PastesOk(table[tok.str])
      && i < |Groups(table[tok.str], tok.hide + {tok.str})|
    ensures var r := Groups(table[tok.str], tok.hide + {tok.str});
      && Expand(table, [tok]) == Expand(table, r[..i]) + Expand(table, [r[i]]) + Expand(table, r[i + 1..])
      && (r[i].kind != Bare && r[i].str in table && r[i].str !in tok.hide + {tok.str} ==>
            PastesOk(table[r[i].str]) &&
            Expand(table, [r[i]]) == Expand(table, Groups(table[r[i].str], tok.hide + {tok.str, r[i].str})))
  {
    hide Expand, Replacement, Groups;
    var hs := tok.hide + {tok.str};
    ReplacementIsGroups(table, tok);
    var r := Groups(table[tok.str], hs);
    ExpandOne(table, tok, []);
    assert [tok] + [] == [tok] && r + [] == r && r == r[..i] + ([r[i]] + r[i + 1..]);
    ExpandConcat(table, r[..i], [r[i]] + r[i + 1..]);
    ExpandConcat(table, [r[i]], r[i + 1..]);
    assert r[i].hide == hs;
    if r[i].kind != Bare && r[i].str in table && r[i].str !in hs {
      ReplacementIsGroups(table, r[i]);
      ExpandOne(table, r[i], []);
      var s := Replacement(table, r[i]);
      assert [r[i]] + [] == [r[i]] && s + [] == s;
      assert hs + {r[i].str} == tok.hide + {tok.str, r[i].str};
    }
  }

  /** One macro for another: where `a` stands for `b` and `b` for `c`, `a` becomes `c`, which hides both. */
  lemma ChainExpands(a: Name, b: Name, c: Name)
    requires a != b && c != a && c != b
    ensures var table: Table := map[a := [Token(Word, b, {})], b := [Token(Word, c, {})]];
      Valid(table) && Expand(table, [Token(Word, a, {})]) == [Token(Word, c, {a, b})]
  {
    var table: Table := map[a := [Token(Word, b, {})], b := [Token(Word, c, {})]];
    var tok := Token(Word, a, {});
    OneGroup(Token(Word, b, {}), {a});
    OneGroup(Token(Word, c, {}), {a, b});
    assert Valid(table);
    assert tok.hide + {tok.str} == {a} && tok.hide + {a, b} == {a, b};
    var inside := Token(Word, b, {a});
    hide Expand, Groups;
    NameInBodyExpands(table, tok, 0);
    assert [inside][..0] == [] && [inside][1..] == [];
    ExpandNothing(table, []);
    ExpandNothing(table, [Token(Word, c, {a, b})]);
  }

  lemma OneGroup(tok: Token, hs: set<Name>)
    requires tok.kind != Paste && tok.hide == {}
    ensures PastesOk([tok]) && Groups([tok], hs) == [tok.(hide := hs)]
  {
    assert [tok][1..] == [];
  }
}
