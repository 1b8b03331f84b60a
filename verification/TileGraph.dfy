/** The graph of tiling choices and what is known about it (instrsel.c:735-787). A node for a subtree leads to its
    choices, a choice to the nodes of its operands. What has been built for a subtree stays built while the graph
    grows, because new nodes are only ever added at the end. */
module TileGraph {
  import opened Tilings

  /** Nodes come in two kinds. The edges of a node for a subtree lead to its choices; those of a choice lead to the
      nodes of its operands. Choices have a rule and the least cost of a tiling with that rule at the root. */
  datatype Graph = Graph(succ: seq<seq<nat>>, rule: seq<nat>, cost: seq<nat>) {
    ghost predicate Shaped() {
      |succ| == |rule| == |cost|
    }
  }

  /** Whatever rule a tiling has at the root is among the choices. */
  ghost predicate Complete(g: Grammar, t: Tree, s: Graph, c: nat)
    requires c < |s.succ| == |s.rule|
  {
    forall w | Covers(g, t, w) :: Chosen(s, c, w.rule)
  }

  ghost predicate Chosen(s: Graph, c: nat, r: nat)
    requires c < |s.succ| == |s.rule|
  {
    exists x :: x in s.succ[c] && x < |s.rule| && s.rule[x] == r
  }

  ghost predicate ChoiceOk(g: Grammar, t: Tree, s: Graph, x: nat) {
    s.Shaped() && x < |s.succ| && Allowed(g, t, s.rule[x]) && LeastWith(g, t, s.rule[x], s.cost[x])
  }

  /** Node `c` offers all the choices for `t`, and everything below it lies between `lo` and `hi`. */
  ghost predicate Built(g: Grammar, t: Tree, s: Graph, lo: nat, c: nat, hi: nat)
    decreases t
  {
    && s.Shaped() && lo <= c < hi <= |s.succ| && Complete(g, t, s, c)
    && forall x | x in s.succ[c] :: lo <= x < hi && ChoiceOk(g, t, s, x) &&
         match t
         case Leaf(_) => s.succ[x] == []
         case Nullary(_, _) => s.succ[x] == []
         case Unary(_, _, a) => |s.succ[x]| == 1 && Built(g, a, s, lo, s.succ[x][0], hi)
         case Binary(_, _, a, b) =>
             |s.succ[x]| == 2 && Built(g, a, s, lo, s.succ[x][0], hi) && Built(g, b, s, lo, s.succ[x][1], hi)
  }

  ghost predicate Agree(s: Graph, u: Graph, lo: nat, hi: nat) {
    && s.Shaped() && u.Shaped() && hi <= |s.succ| && hi <= |u.succ|
    && forall i | lo <= i < hi :: u.succ[i] == s.succ[i] && u.rule[i] == s.rule[i] && u.cost[i] == s.cost[i]
  }

  /** What has been built stays built while nodes outside its range change. */
  lemma {:induction false} BuiltFrame(g: Grammar, t: Tree, s: Graph, u: Graph, lo: nat, c: nat, hi: nat, low: nat,
                                      high: nat)
    requires Built(g, t, s, lo, c, hi) && Agree(s, u, lo, hi) && low <= lo && hi <= high <= |u.succ|
    ensures Built(g, t, u, low, c, high)
    decreases t
  {
    hide LeastWith, Allowed, Covers;
    forall w | Covers(g, t, w) ensures Chosen(u, c, w.rule) {
      assert Chosen(s, c, w.rule);
    }
    forall x | x in u.succ[c] ensures low <= x < high && ChoiceOk(g, t, u, x) {
      assert x in s.succ[c];
    }
    match t
    case Leaf(_) =>
    case Nullary(_, _) =>
    case Unary(_, _, a) =>
      forall x | x in u.succ[c] ensures |u.succ[x]| == 1 && Built(g, a, u, low, u.succ[x][0], high) {
        BuiltFrame(g, a, s, u, lo, s.succ[x][0], hi, low, high);
      }
    case Binary(_, _, a, b) =>
      forall x | x in u.succ[c]
        ensures |u.succ[x]| == 2 && Built(g, a, u, low, u.succ[x][0], high) && Built(g, b, u, low, u.succ[x][1], high)
      {
        BuiltFrame(g, a, s, u, lo, s.succ[x][0], hi, low, high);
        BuiltFrame(g, b, s, u, lo, s.succ[x][1], hi, low, high);
      }
  }

  /** The cheapest of the choices that make `d`. */
  ghost predicate CheapestMaking(g: Grammar, s: Graph, c: nat, d: nat, m: nat)
    requires s.Shaped() && c < |s.succ|
  {
    && (exists x :: x in s.succ[c] && Making(g, s, x, d) && s.cost[x] == m)
    && (forall x | x in s.succ[c] && Making(g, s, x, d) :: m <= s.cost[x])
  }

  ghost predicate Making(g: Grammar, s: Graph, x: nat, d: nat) {
    s.Shaped() && x < |s.succ| && s.rule[x] < |g.rules| && g.rules[s.rule[x]].dst == d
  }

  lemma BuiltTop(g: Grammar, t: Tree, s: Graph, lo: nat, c: nat, hi: nat)
    requires Built(g, t, s, lo, c, hi)
    ensures s.Shaped() && lo <= c < hi <= |s.succ| && Complete(g, t, s, c)
    ensures forall x | x in s.succ[c] :: lo <= x < hi && ChoiceOk(g, t, s, x)
  {
  }

  lemma ChoiceMakes(g: Grammar, t: Tree, s: Graph, x: nat, d: nat)
    requires ChoiceOk(g, t, s, x) && Making(g, s, x, d)
    ensures exists w :: Covers(g, t, w) && g.rules[w.rule].dst == d && Cost(g, t, w) == s.cost[x]
  {
    var w :| Covers(g, t, w) && w.rule == s.rule[x] && Cost(g, t, w) == s.cost[x];
  }

  /** No tiling is cheaper than the choice with its rule. */
  lemma ChoiceBelow(g: Grammar, t: Tree, s: Graph, lo: nat, c: nat, hi: nat, w: Tiling) returns (y: nat)
    requires Built(g, t, s, lo, c, hi) && Covers(g, t, w)
    ensures y in s.succ[c] && Making(g, s, y, g.rules[w.rule].dst) && s.cost[y] <= Cost(g, t, w)
  {
    hide Cost;
    BuiltTop(g, t, s, lo, c, hi);
    assert Chosen(s, c, w.rule);
    y :| y in s.succ[c] && y < |s.rule| && s.rule[y] == w.rule;
    assert ChoiceOk(g, t, s, y);
  }

  lemma CheapestIsLeast(g: Grammar, t: Tree, s: Graph, lo: nat, c: nat, hi: nat, d: nat, m: nat)
    requires Built(g, t, s, lo, c, hi) && CheapestMaking(g, s, c, d, m)
    ensures LeastMaking(g, t, d, m)
  {
    hide Built, Cost, ChoiceOk;
    BuiltTop(g, t, s, lo, c, hi);
    var x :| x in s.succ[c] && Making(g, s, x, d) && s.cost[x] == m;
    ChoiceMakes(g, t, s, x, d);
    forall w | Covers(g, t, w) && g.rules[w.rule].dst == d ensures m <= Cost(g, t, w) {
      var y := ChoiceBelow(g, t, s, lo, c, hi, w);
    }
  }

  /** The operand makes `d` exactly if one of its choices does. */
  lemma MakesByChoice(g: Grammar, t: Tree, s: Graph, lo: nat, c: nat, hi: nat, d: nat)
    requires Built(g, t, s, lo, c, hi)
    ensures Makes(g, t, d) <==> exists x :: x in s.succ[c] && Making(g, s, x, d)
  {
    hide Built, Cost, ChoiceOk;
    BuiltTop(g, t, s, lo, c, hi);
    if Makes(g, t, d) {
      var w :| Covers(g, t, w) && g.rules[w.rule].dst == d;
      var y := ChoiceBelow(g, t, s, lo, c, hi, w);
    }
    if x :| x in s.succ[c] && Making(g, s, x, d) {
      ChoiceMakes(g, t, s, x, d);
    }
  }

  /** A choice has a tiling, so its cost is bounded. */
  lemma ChoiceCheap(g: Grammar, t: Tree, s: Graph, x: nat, most: nat)
    requires ChoiceOk(g, t, s, x) && CheapRules(g, most)
    ensures s.cost[x] <= Size(t) * most
  {
    var w :| Covers(g, t, w) && w.rule == s.rule[x] && Cost(g, t, w) == s.cost[x];
    CostBound(g, t, w, most);
  }

  // Adding a choice

  /** A new node with edges `kids`, reached from `c`. */
  function AddChoice(s: Graph, c: nat, r: nat, cost: nat, kids: seq<nat>): Graph
    requires s.Shaped() && c < |s.succ|
  {
    Graph(s.succ[c := s.succ[c] + [|s.succ|]] + [kids], s.rule + [r], s.cost + [cost])
  }

  /** The choices collected for `t` so far: they lead to `kids`, and every rule among the first `i` of `list` that a
      tiling has at its root is one of them. */
  ghost predicate Collecting(g: Grammar, t: Tree, s: Graph, c: nat, kids: seq<nat>, list: seq<nat>, i: nat) {
    && s.Shaped() && c < |s.succ| && i <= |list|
    && (forall x | x in s.succ[c] :: c < x < |s.succ| && ChoiceOk(g, t, s, x) && s.succ[x] == kids)
    && (forall w | Covers(g, t, w) && w.rule in list[..i] :: Chosen(s, c, w.rule))
  }

  lemma CollectChoice(g: Grammar, t: Tree, s: Graph, c: nat, kids: seq<nat>, list: seq<nat>, i: nat, cost: nat)
    requires Collecting(g, t, s, c, kids, list, i) && i < |list| && Allowed(g, t, list[i])
      && LeastWith(g, t, list[i], cost)
    ensures Collecting(g, t, AddChoice(s, c, list[i], cost, kids), c, kids, list, i + 1)
  {
    hide LeastWith, Allowed, Covers;
    var u := AddChoice(s, c, list[i], cost, kids);
    assert list[..i + 1] == list[..i] + [list[i]];
    forall x | x in u.succ[c] ensures c < x < |u.succ| && ChoiceOk(g, t, u, x) && u.succ[x] == kids {
      if x != |s.succ| { assert x in s.succ[c] && ChoiceOk(g, t, s, x); }
    }
    forall w | Covers(g, t, w) && w.rule in list[..i + 1] ensures Chosen(u, c, w.rule) {
      if w.rule == list[i] {
        assert |s.succ| in u.succ[c];
      } else {
        assert Chosen(s, c, w.rule);
        var x :| x in s.succ[c] && x < |s.rule| && s.rule[x] == w.rule;
        assert x in u.succ[c];
      }
    }
  }

  lemma SkipRule(g: Grammar, t: Tree, s: Graph, c: nat, kids: seq<nat>, list: seq<nat>, i: nat)
    requires Collecting(g, t, s, c, kids, list, i) && i < |list| && forall w | Covers(g, t, w) :: w.rule != list[i]
    ensures Collecting(g, t, s, c, kids, list, i + 1)
  {
    hide LeastWith, Allowed, Covers;
    assert list[..i + 1] == list[..i] + [list[i]];
  }
}
