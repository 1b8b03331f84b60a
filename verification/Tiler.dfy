/** Tiling instruction trees and picking the rules (instrsel.c:742-1037, 1235-1263). */
module Tiler {
  import opened Tilings
  import opened TileGraph
  import opened Basics

  /** More than any tiling costs. */
  const LIMIT: nat := 100000000

  function Ids(t: Tree): set<nat> {
    match t
    case Leaf(id) => {id}
    case Nullary(id, _) => {id}
    case Unary(id, _, a) => {id} + Ids(a)
    case Binary(id, _, a, b) => {id} + Ids(a) + Ids(b)
  }

  /** The nodes of the tree are numbered apart. */
  predicate DistinctIds(t: Tree) {
    match t
    case Leaf(_) => true
    case Nullary(_, _) => true
    case Unary(id, _, a) => id !in Ids(a) && DistinctIds(a)
    case Binary(id, _, a, b) => id !in Ids(a) + Ids(b) && Ids(a) !! Ids(b) && DistinctIds(a) && DistinctIds(b)
  }

  ghost predicate Tileable(g: Grammar, t: Tree) {
    exists w :: Covers(g, t, w)
  }

  ghost predicate Cheap(g: Grammar, t: Tree, most: nat) {
    CheapRules(g, most) && Size(t) * most < LIMIT
  }

  /** The nodes for the operands of `t`. */
  ghost predicate KidsBuilt(g: Grammar, t: Tree, s: Graph, lo: nat, kids: seq<nat>, hi: nat) {
    match t
    case Unary(_, _, a) => |kids| == 1 && Built(g, a, s, lo, kids[0], hi)
    case Binary(_, _, a, b) => |kids| == 2 && Built(g, a, s, lo, kids[0], hi) && Built(g, b, s, lo, kids[1], hi)
    case _ => kids == []
  }

  lemma KidsFrame(g: Grammar, t: Tree, s: Graph, u: Graph, lo: nat, kids: seq<nat>, hi: nat)
    requires KidsBuilt(g, t, s, lo, kids, hi) && Agree(s, u, lo, hi)
    ensures KidsBuilt(g, t, u, lo, kids, hi)
  {
    hide Built;
    match t
    case Unary(_, _, a) => BuiltFrame(g, a, s, u, lo, kids[0], hi, lo, hi);
    case Binary(_, _, a, b) =>
      BuiltFrame(g, a, s, u, lo, kids[0], hi, lo, hi);
      BuiltFrame(g, b, s, u, lo, kids[1], hi, lo, hi);
    case _ =>
  }

  /** When all rules have been gone through, the choices are complete. */
  lemma CollectedIsBuilt(g: Grammar, t: Tree, s: Graph, lo: nat, c: nat, kids: seq<nat>, list: seq<nat>)
    requires Collecting(g, t, s, c, kids, list, |list|) && lo <= c && KidsBuilt(g, t, s, lo, kids, |s.succ|)
    requires forall w | Covers(g, t, w) :: w.rule in list
    ensures Built(g, t, s, lo, c, |s.succ|)
    ensures s.succ[c] == [] ==> !Tileable(g, t)
  {
    hide Covers, LeastWith, Allowed;
    assert list[..|list|] == list;
    forall w | Covers(g, t, w) ensures Chosen(s, c, w.rule) {}
  }

  lemma KidsWiden(g: Grammar, t: Tree, s: Graph, lo: nat, kids: seq<nat>, hi: nat, low: nat)
    requires KidsBuilt(g, t, s, lo, kids, hi) && low <= lo && hi <= |s.succ| && s.Shaped()
    ensures KidsBuilt(g, t, s, low, kids, |s.succ|)
  {
    hide Built;
    match t
    case Unary(_, _, a) => BuiltFrame(g, a, s, s, lo, kids[0], hi, low, |s.succ|);
    case Binary(_, _, a, b) =>
      BuiltFrame(g, a, s, s, lo, kids[0], hi, low, |s.succ|);
      BuiltFrame(g, b, s, s, lo, kids[1], hi, low, |s.succ|);
    case _ =>
  }

  /** The rule can be the root of a tiling. */
  ghost predicate Usable(g: Grammar, t: Tree, r: nat) {
    && Allowed(g, t, r)
    && match t
       case Unary(_, _, a) => Makes(g, a, g.rules[r].src1)
       case Binary(_, _, a, b) => Makes(g, a, g.rules[r].src1) && Makes(g, b, g.rules[r].src2)
       case _ => true
  }

  lemma CoverIsUsable(g: Grammar, t: Tree, w: Tiling)
    requires Covers(g, t, w)
    ensures Usable(g, t, w.rule) && w.rule in g.byOperation(Operation(t))
  {
  }

  // Labels

  function LabelsOf(labels: map<nat, set<nat>>, id: nat): set<nat> {
    if id in labels then labels[id] else {}
  }

  /** The labels of a node are the rules of its choices. */
  ghost predicate LabelsRight(labels: map<nat, set<nat>>, s: Graph, id: nat, c: nat)
    requires c < |s.succ| == |s.rule|
  {
    forall r :: r in LabelsOf(labels, id) <==> Chosen(s, c, r)
  }

  lemma LabelsMatch(g: Grammar, t: Tree, s: Graph, lo: nat, c: nat, hi: nat, labels: map<nat, set<nat>>, d: nat)
    requires Built(g, t, s, lo, c, hi) && LabelsRight(labels, s, t.id, c)
    ensures (exists r :: r in LabelsOf(labels, t.id) && r < |g.rules| && g.rules[r].dst == d) <==> Makes(g, t, d)
  {
    hide Built, ChoiceOk, LabelsOf;
    MakesByChoice(g, t, s, lo, c, hi, d);
    BuiltTop(g, t, s, lo, c, hi);
    if r :| r in LabelsOf(labels, t.id) && r < |g.rules| && g.rules[r].dst == d {
      assert Chosen(s, c, r);
      var x :| x in s.succ[c] && x < |s.rule| && s.rule[x] == r;
      assert Making(g, s, x, d);
    }
    if x :| x in s.succ[c] && Making(g, s, x, d) {
      assert Chosen(s, c, s.rule[x]);
    }
  }

  lemma LabelsFrame(s: Graph, u: Graph, labels: map<nat, set<nat>>, now: map<nat, set<nat>>, id: nat, c: nat, lo: nat,
                    hi: nat)
    requires s.Shaped() && lo <= c < hi && Agree(s, u, lo, hi) && LabelsRight(labels, s, id, c)
    requires LabelsOf(now, id) == LabelsOf(labels, id) && forall x | x in s.succ[c] :: lo <= x < hi
    ensures LabelsRight(now, u, id, c)
  {
    forall r ensures Chosen(s, c, r) <==> Chosen(u, c, r) {
      if Chosen(s, c, r) {
        var x :| x in s.succ[c] && x < |s.rule| && s.rule[x] == r;
        assert x in u.succ[c] && u.rule[x] == r;
      }
      if Chosen(u, c, r) {
        var x :| x in u.succ[c] && x < |u.rule| && u.rule[x] == r;
        assert x in s.succ[c] && s.rule[x] == r;
      }
    }
  }

  // Costs

  /** `m` is the cost of the choice of `r` for `t`, given the nodes of its operands. */
  ghost predicate PricedBy(g: Grammar, t: Tree, s: Graph, r: nat, kids: seq<nat>, m: nat)
    requires s.Shaped() && r < |g.rules| && forall i | 0 <= i < |kids| :: kids[i] < |s.succ|
  {
    match |kids|
    case 0 => m == g.rules[r].cost
    case 1 => exists a: nat :: CheapestMaking(g, s, kids[0], g.rules[r].src1, a) && m == g.rules[r].cost + a
    case _ => exists a: nat, b: nat :: CheapestMaking(g, s, kids[0], g.rules[r].src1, a)
                && CheapestMaking(g, s, kids[1], g.rules[r].src2, b) && m == g.rules[r].cost + a + b
  }

  lemma PriceIsLeast(g: Grammar, t: Tree, s: Graph, lo: nat, kids: seq<nat>, hi: nat, r: nat, m: nat)
    requires KidsBuilt(g, t, s, lo, kids, hi) && Allowed(g, t, r) && s.Shaped()
      && forall i | 0 <= i < |kids| :: kids[i] < |s.succ|
    requires PricedBy(g, t, s, r, kids, m)
    ensures LeastWith(g, t, r, m)
  {
    hide Built, CheapestMaking, LeastMaking, LeastWith;
    match t
    case Unary(_, _, a) =>
      var x: nat :| CheapestMaking(g, s, kids[0], g.rules[r].src1, x) && m == g.rules[r].cost + x;
      CheapestIsLeast(g, a, s, lo, kids[0], hi, g.rules[r].src1, x);
      LeastUnary(g, t, r, x);
    case Binary(_, _, a, b) =>
      var x: nat, y: nat :| CheapestMaking(g, s, kids[0], g.rules[r].src1, x)
        && CheapestMaking(g, s, kids[1], g.rules[r].src2, y) && m == g.rules[r].cost + x + y;
      CheapestIsLeast(g, a, s, lo, kids[0], hi, g.rules[r].src1, x);
      CheapestIsLeast(g, b, s, lo, kids[1], hi, g.rules[r].src2, y);
      LeastBinary(g, t, r, x, y);
    case _ => LeastLeaf(g, t, r);
  }

  lemma ChoicesCheap(g: Grammar, t: Tree, s: Graph, lo: nat, c: nat, hi: nat, most: nat)
    requires Built(g, t, s, lo, c, hi) && Cheap(g, t, most)
    ensures forall x | x in s.succ[c] :: x < |s.cost| && s.cost[x] < LIMIT
  {
    hide Built, ChoiceOk;
    BuiltTop(g, t, s, lo, c, hi);
    forall x | x in s.succ[c] ensures x < |s.cost| && s.cost[x] < LIMIT { ChoiceCheap(g, t, s, x, most); }
  }

  lemma SubtreesCheap(g: Grammar, t: Tree, most: nat)
    requires Cheap(g, t, most)
    ensures t.Unary? ==> Cheap(g, t.src1, most)
    ensures t.Binary? ==> Cheap(g, t.src1, most) && Cheap(g, t.src2, most)
  {
    match t
    case Unary(_, _, a) => Spread(Size(a), 0, most);
    case Binary(_, _, a, b) => Spread(Size(a), Size(b), most);
    case _ =>
  }

  /** The least cost among the choices of node `c` that make `d`; LIMIT if none does. */
  method MinCost(g: Grammar, s: Graph, c: nat, d: nat) returns (min: nat)
    requires s.Shaped()
      && c < |s.succ| && forall x | x in s.succ[c] :: x < |s.succ| && s.rule[x] < |g.rules| && s.cost[x] < LIMIT
    ensures (exists x :: x in s.succ[c] && Making(g, s, x, d)) ==> CheapestMaking(g, s, c, d, min)
    ensures !(exists x :: x in s.succ[c] && Making(g, s, x, d)) ==> min == LIMIT
  {
    min := LIMIT;
    var edges := s.succ[c];
    for i := 0 to |edges|
      invariant forall k | 0 <= k < i && Making(g, s, edges[k], d) :: min <= s.cost[edges[k]]
      invariant min == LIMIT || exists k :: 0 <= k < i && Making(g, s, edges[k], d) && s.cost[edges[k]] == min
      invariant min <= LIMIT
    {
      var x := edges[i];
      assert x in s.succ[c];
      if g.rules[s.rule[x]].dst == d && s.cost[x] < min {
        min := s.cost[x];
        assert Making(g, s, x, d);
      }
    }
  }

  // One node

  function KidId(t: Tree, k: nat): nat {
    match t
    case Unary(_, _, a) => a.id
    case Binary(_, _, a, b) => if k == 0 then a.id else b.id
    case _ => 0
  }

  /** While the rules for `t` are gone through: `was` is the graph before the node `c` for `t` was made, `h` its size
      when the operands had been tiled. */
  ghost predicate AtNode(g: Grammar, t: Tree, was: Graph, s: Graph, c: nat, kids: seq<nat>, h: nat,
                         before: map<nat, set<nat>>, labels: map<nat, set<nat>>, list: seq<nat>, i: nat) {
    && was.Shaped() && c == |was.succ| && c < h <= |s.succ| && Agree(was, s, 0, c)
    && Collecting(g, t, s, c, kids, list, i) && KidsBuilt(g, t, s, c + 1, kids, h)
    && LabelsRight(labels, s, t.id, c)
    && (forall id | id != t.id :: LabelsOf(labels, id) == LabelsOf(before, id))
    && (forall k: nat | k < |kids| ::
        kids[k] < h && LabelsRight(before, s, KidId(t, k), kids[k]) && KidId(t, k) != t.id)
  }

  lemma ChoiceAgrees(s: Graph, c: nat, r: nat, m: nat, kids: seq<nat>)
    requires s.Shaped() && c < |s.succ|
    ensures var u := AddChoice(s, c, r, m, kids); Agree(s, u, 0, c) && Agree(s, u, c + 1, |s.succ|) && u.Shaped()
  {
  }

  lemma NodeAdds(g: Grammar, t: Tree, was: Graph, s: Graph, c: nat, kids: seq<nat>, h: nat, before: map<nat, set<nat>>,
                 labels: map<nat, set<nat>>, list: seq<nat>, i: nat, m: nat)
    requires AtNode(g, t, was, s, c, kids, h, before, labels, list, i) && i < |list| && Allowed(g, t, list[i])
    requires LeastWith(g, t, list[i], m)
    ensures AtNode(g, t, was, AddChoice(s, c, list[i], m, kids), c, kids, h, before,
                   labels[t.id := LabelsOf(labels, t.id) + {list[i]}], list, i + 1)
  {
    hide LeastWith, Allowed, Collecting, Built;
    var u := AddChoice(s, c, list[i], m, kids);
    CollectingShape(g, t, s, c, kids, list, i);
    ChoiceAgrees(s, c, list[i], m, kids);
    CollectChoice(g, t, s, c, kids, list, i, m);
    KidsFrame(g, t, s, u, c + 1, kids, h);
    ChoiceLabels(s, c, list[i], m, kids, labels, t.id);
    forall k: nat | k < |kids| ensures LabelsRight(before, u, KidId(t, k), kids[k]) {
      KidInRange(g, t, s, c + 1, kids, h, k);
      LabelsFrame(s, u, before, before, KidId(t, k), kids[k], c + 1, h);
    }
  }

  lemma CollectingShape(g: Grammar, t: Tree, s: Graph, c: nat, kids: seq<nat>, list: seq<nat>, i: nat)
    requires Collecting(g, t, s, c, kids, list, i)
    ensures s.Shaped() && c < |s.succ| && forall x | x in s.succ[c] :: c < x < |s.succ|
  {
  }

  lemma KidInRange(g: Grammar, t: Tree, s: Graph, lo: nat, kids: seq<nat>, hi: nat, k: nat)
    requires KidsBuilt(g, t, s, lo, kids, hi) && k < |kids|
    ensures s.Shaped() && lo <= kids[k] < hi <= |s.succ| && forall x | x in s.succ[kids[k]] :: lo <= x < hi
  {
  }

  lemma ChoiceLabels(s: Graph, c: nat, r: nat, m: nat, kids: seq<nat>, labels: map<nat, set<nat>>, id: nat)
    requires s.Shaped() && c < |s.succ| && LabelsRight(labels, s, id, c) && forall x | x in s.succ[c] :: x < |s.succ|
    ensures LabelsRight(labels[id := LabelsOf(labels, id) + {r}], AddChoice(s, c, r, m, kids), id, c)
  {
    var u := AddChoice(s, c, r, m, kids);
    var now := labels[id := LabelsOf(labels, id) + {r}];
    forall q ensures q in LabelsOf(now, id) <==> Chosen(u, c, q) {
      if Chosen(s, c, q) {
        var x :| x in s.succ[c] && x < |s.rule| && s.rule[x] == q;
        assert x in u.succ[c] && u.rule[x] == q;
      }
      assert |s.succ| in u.succ[c] && u.rule[|s.succ|] == r;
      if Chosen(u, c, q) && q != r {
        var x :| x in u.succ[c] && x < |u.rule| && u.rule[x] == q;
        assert x in s.succ[c] && s.rule[x] == q;
      }
    }
  }

  lemma NodeSkips(g: Grammar, t: Tree, was: Graph, s: Graph, c: nat, kids: seq<nat>, h: nat, before: map<nat, set<nat>>,
                  labels: map<nat, set<nat>>, list: seq<nat>, i: nat)
    requires AtNode(g, t, was, s, c, kids, h, before, labels, list, i) && i < |list| && !Usable(g, t, list[i])
    ensures AtNode(g, t, was, s, c, kids, h, before, labels, list, i + 1)
  {
    hide LeastWith, Built, Usable, LabelsRight;
    forall w | Covers(g, t, w) ensures w.rule != list[i] { CoverIsUsable(g, t, w); }
    SkipRule(g, t, s, c, kids, list, i);
  }

  /** The graph with one more node. */
  function WithNode(s: Graph): Graph {
    Graph(s.succ + [[]], s.rule + [0], s.cost + [0])
  }

  /** The result of tiling `t`. */
  ghost predicate TiledAs(g: Grammar, t: Tree, was: Graph, s: Graph, c: nat, before: map<nat, set<nat>>,
                          labels: map<nat, set<nat>>) {
    && was.Shaped() && s.Shaped() && c == |was.succ| < |s.succ| && Agree(was, s, 0, c) && Built(g, t, s, c, c, |s.succ|)
    && (!t.Nullary? ==> LabelsRight(labels, s, t.id, c))
    && (forall id | id !in Ids(t) :: LabelsOf(labels, id) == LabelsOf(before, id))
  }

  ghost predicate NoLabels(t: Tree, labels: map<nat, set<nat>>) {
    forall id | id in Ids(t) :: LabelsOf(labels, id) == {}
  }

  lemma StartLeaf(g: Grammar, t: Tree, was: Graph, labels: map<nat, set<nat>>, list: seq<nat>)
    requires (t.Leaf? || t.Nullary?) && was.Shaped() && NoLabels(t, labels)
    ensures AtNode(g, t, was, WithNode(was), |was.succ|, [], |was.succ| + 1, labels, labels, list, 0)
  {
    assert list[..0] == [];
  }

  lemma StartUnary(g: Grammar, t: Tree, was: Graph, s: Graph, k: nat, before: map<nat, set<nat>>,
                   labels: map<nat, set<nat>>, list: seq<nat>)
    requires t.Unary? && DistinctIds(t) && OperandsOk(t) && was.Shaped() && NoLabels(t, before)
    requires TiledAs(g, t.src1, WithNode(was), s, k, before, labels)
    ensures AtNode(g, t, was, s, |was.succ|, [k], |s.succ|, labels, labels, list, 0)
  {
    hide Built;
    StartNode(g, t, was, s, labels, list);
    RootId(t.src1);
  }

  lemma StartBinary(g: Grammar, t: Tree, was: Graph, mid: Graph, s: Graph, k: nat, j: nat, before: map<nat, set<nat>>,
                    half: map<nat, set<nat>>, labels: map<nat, set<nat>>, list: seq<nat>)
    requires t.Binary? && DistinctIds(t) && OperandsOk(t) && was.Shaped() && NoLabels(t, before)
    requires TiledAs(g, t.src1, WithNode(was), mid, k, before, half) && TiledAs(g, t.src2, mid, s, j, half, labels)
    ensures AtNode(g, t, was, s, |was.succ|, [k, j], |s.succ|, labels, labels, list, 0)
  {
    hide Built;
    StartNode(g, t, was, s, labels, list);
    RootId(t.src1);
    RootId(t.src2);
    BuiltFrame(g, t.src1, mid, s, k, k, |mid.succ|, |was.succ| + 1, |s.succ|);
    BuiltFrame(g, t.src2, s, s, j, j, |s.succ|, |was.succ| + 1, |s.succ|);
    BuiltTop(g, t.src1, mid, k, k, |mid.succ|);
    LabelsFrame(mid, s, half, labels, t.src1.id, k, k, |mid.succ|);
  }

  lemma RootId(t: Tree)
    ensures t.id in Ids(t)
  {
  }

  lemma StartNode(g: Grammar, t: Tree, was: Graph, s: Graph, labels: map<nat, set<nat>>, list: seq<nat>)
    requires was.Shaped() && Agree(WithNode(was), s, 0, |was.succ| + 1) && LabelsOf(labels, t.id) == {}
    ensures Agree(was, s, 0, |was.succ|) && s.succ[|was.succ|] == []
    ensures forall kids :: Collecting(g, t, s, |was.succ|, kids, list, 0)
    ensures LabelsRight(labels, s, t.id, |was.succ|)
  {
    assert list[..0] == [];
  }

  /** When all rules have been gone through and some were used. */
  lemma NodeDone(g: Grammar, t: Tree, was: Graph, s: Graph, c: nat, kids: seq<nat>, h: nat, start: map<nat, set<nat>>,
                 before: map<nat, set<nat>>, labels: map<nat, set<nat>>)
    requires var list := g.byOperation(Operation(t)); AtNode(g, t, was, s, c, kids, h, before, labels, list, |list|)
    requires forall id | id !in Ids(t) :: LabelsOf(before, id) == LabelsOf(start, id)
    ensures c < |s.succ| && (s.succ[c] != [] ==> TiledAs(g, t, was, s, c, start, labels) && Tileable(g, t))
    ensures s.succ[c] == [] ==> !Tileable(g, t)
  {
    hide Built, LeastWith, Allowed, LabelsRight;
    RootId(t);
    forall w | Covers(g, t, w) ensures w.rule in g.byOperation(Operation(t)) { CoverIsUsable(g, t, w); }
    KidsWiden(g, t, s, c + 1, kids, h, c);
    CollectedIsBuilt(g, t, s, c, c, kids, g.byOperation(Operation(t)));
    if s.succ[c] != [] {
      var x := s.succ[c][0];
      assert ChoiceOk(g, t, s, x);
      ChoiceTiles(g, t, s, x);
    }
  }

  lemma ChoiceTiles(g: Grammar, t: Tree, s: Graph, x: nat)
    requires ChoiceOk(g, t, s, x)
    ensures Tileable(g, t)
  {
  }

  lemma NoTilingWithoutParts(g: Grammar, t: Tree)
    ensures t.Unary? && !Tileable(g, t.src1) ==> !Tileable(g, t)
    ensures t.Binary? && (!Tileable(g, t.src1) || !Tileable(g, t.src2)) ==> !Tileable(g, t)
  {
    forall w | Covers(g, t, w)
      ensures t.Unary? ==> Tileable(g, t.src1)
      ensures t.Binary? ==> Tileable(g, t.src1) && Tileable(g, t.src2)
    {
      if t.Unary? { assert Covers(g, t.src1, w.parts[0]); }
      if t.Binary? { assert Covers(g, t.src1, w.parts[0]) && Covers(g, t.src2, w.parts[1]); }
    }
  }

  lemma NullaryDone(g: Grammar, t: Tree, was: Graph, labels: map<nat, set<nat>>, r: nat)
    requires t.Nullary? && was.Shaped() && g.Valid() && g.byOperation(t.op) != [] && r == g.byOperation(t.op)[0]
    ensures TiledAs(g, t, was, AddChoice(WithNode(was), |was.succ|, r, g.rules[r].cost, []), |was.succ|, labels, labels)
    ensures Tileable(g, t)
  {
    var c := |was.succ|;
    var s := AddChoice(WithNode(was), c, r, g.rules[r].cost, []);
    LeastLeaf(g, t, r);
    assert s.succ[c] == [c + 1] && s.rule[c + 1] == r;
    assert Allowed(g, t, r) && ChoiceOk(g, t, s, c + 1);
    forall w | Covers(g, t, w) ensures Chosen(s, c, w.rule) {}
    ChoiceTiles(g, t, s, c + 1);
  }

  /** The labels of the operands tell whether a rule can be used. */
  lemma UsableByLabels(g: Grammar, t: Tree, was: Graph, s: Graph, c: nat, kids: seq<nat>, h: nat,
                       before: map<nat, set<nat>>, labels: map<nat, set<nat>>, list: seq<nat>, i: nat, r: nat)
    requires AtNode(g, t, was, s, c, kids, h, before, labels, list, i) && (t.Unary? || t.Binary?)
    requires r in g.byOperation(Operation(t)) && r < |g.rules|
    ensures Usable(g, t, r) <==>
              && g.fits(t.id, r) && (g.rules[r].src2 != 0 <==> |kids| == 2)
              && (forall k: nat | k < |kids| :: MadeBy(g, labels, KidId(t, k), if k == 0
                  then g.rules[r].src1 else g.rules[r].src2))
  {
    hide Built, Collecting, LabelsOf, Makes;
    match t
    case Unary(_, _, a) =>
      LabelsMatch(g, a, s, c + 1, kids[0], h, before, g.rules[r].src1);
      assert LabelsOf(labels, KidId(t, 0)) == LabelsOf(before, KidId(t, 0));
    case Binary(_, _, a, b) =>
      LabelsMatch(g, a, s, c + 1, kids[0], h, before, g.rules[r].src1);
      LabelsMatch(g, b, s, c + 1, kids[1], h, before, g.rules[r].src2);
      assert LabelsOf(labels, KidId(t, 0)) == LabelsOf(before, KidId(t, 0));
      assert LabelsOf(labels, KidId(t, 1)) == LabelsOf(before, KidId(t, 1));
  }

  ghost predicate MadeBy(g: Grammar, labels: map<nat, set<nat>>, id: nat, d: nat) {
    exists r :: r in LabelsOf(labels, id) && r < |g.rules| && g.rules[r].dst == d
  }

  lemma KidLabelsAreRules(g: Grammar, t: Tree, was: Graph, s: Graph, c: nat, kids: seq<nat>, h: nat,
                          before: map<nat, set<nat>>, labels: map<nat, set<nat>>, list: seq<nat>, i: nat, k: nat)
    requires AtNode(g, t, was, s, c, kids, h, before, labels, list, i) && k < |kids|
    ensures forall r | r in LabelsOf(labels, KidId(t, k)) :: r < |g.rules|
  {
    hide Collecting, LabelsOf, LeastWith;
    assert LabelsOf(labels, KidId(t, k)) == LabelsOf(before, KidId(t, k));
    match t
    case Unary(_, _, a) => LabelsAreRules(g, a, s, c + 1, kids[0], h, before);
    case Binary(_, _, a, b) =>
      LabelsAreRules(g, a, s, c + 1, kids[0], h, before);
      LabelsAreRules(g, b, s, c + 1, kids[1], h, before);
    case _ =>
  }

  lemma LabelsAreRules(g: Grammar, t: Tree, s: Graph, lo: nat, c: nat, hi: nat, labels: map<nat, set<nat>>)
    requires Built(g, t, s, lo, c, hi) && LabelsRight(labels, s, t.id, c)
    ensures forall r | r in LabelsOf(labels, t.id) :: r < |g.rules|
  {
    BuiltTop(g, t, s, lo, c, hi);
    forall r | r in LabelsOf(labels, t.id) ensures r < |g.rules| {
      assert Chosen(s, c, r);
      var x :| x in s.succ[c] && x < |s.rule| && s.rule[x] == r;
      assert ChoiceOk(g, t, s, x);
    }
  }

  /** The choices of an operand are rules of bounded cost. */
  lemma KidChoices(g: Grammar, t: Tree, s: Graph, lo: nat, kids: seq<nat>, hi: nat, most: nat, k: nat)
    requires KidsBuilt(g, t, s, lo, kids, hi) && Cheap(g, t, most) && k < |kids|
    ensures s.Shaped() && kids[k] < |s.succ|
    ensures forall x | x in s.succ[kids[k]] :: x < |s.succ| && s.rule[x] < |g.rules| && s.cost[x] < LIMIT
  {
    hide Cheap, LeastWith;
    SubtreesCheap(g, t, most);
    match t
    case Unary(_, _, a) =>
      BuiltTop(g, a, s, lo, kids[0], hi);
      ChoicesCheap(g, a, s, lo, kids[0], hi, most);
    case Binary(_, _, a, b) =>
      BuiltTop(g, a, s, lo, kids[0], hi);
      BuiltTop(g, b, s, lo, kids[1], hi);
      ChoicesCheap(g, a, s, lo, kids[0], hi, most);
      ChoicesCheap(g, b, s, lo, kids[1], hi, most);
    case _ =>
  }

  /** An operand of a rule that can be used makes what the rule needs. */
  lemma KidMakes(g: Grammar, t: Tree, s: Graph, lo: nat, kids: seq<nat>, hi: nat, r: nat, k: nat)
    requires KidsBuilt(g, t, s, lo, kids, hi) && Usable(g, t, r) && k < |kids| && s.Shaped() && kids[k] < |s.succ|
    ensures r < |g.rules|
      && exists x :: x in s.succ[kids[k]] && Making(g, s, x, if k == 0 then g.rules[r].src1 else g.rules[r].src2)
  {
    hide Built, Makes, Making;
    match t
    case Unary(_, _, a) => MakesByChoice(g, a, s, lo, kids[0], hi, g.rules[r].src1);
    case Binary(_, _, a, b) =>
      MakesByChoice(g, a, s, lo, kids[0], hi, g.rules[r].src1);
      MakesByChoice(g, b, s, lo, kids[1], hi, g.rules[r].src2);
    case _ =>
  }

  /** `x` is a choice of `c` that makes what is wanted, and the cheapest. */
  ghost predicate CheapestChoice(g: Grammar, s: Graph, c: nat, want: Option<nat>, x: nat)
    requires s.Shaped() && c < |s.succ|
  {
    && x in s.succ[c] && x < |s.succ| && Wanted(g, s, x, want)
    && forall y | y in s.succ[c] && y < |s.succ| && Wanted(g, s, y, want) :: s.cost[x] <= s.cost[y]
  }

  ghost predicate Wanted(g: Grammar, s: Graph, x: nat, want: Option<nat>) {
    want.Some? ==> Making(g, s, x, want.value)
  }

  /** `w` is a tiling of `t` that makes what is wanted, and none that does is cheaper. */
  ghost predicate Optimal(g: Grammar, t: Tree, want: Option<nat>, w: Tiling) {
    && Covers(g, t, w) && (want.Some? ==> g.rules[w.rule].dst == want.value)
    && forall v | Covers(g, t, v) && (want.Some? ==> g.rules[v.rule].dst == want.value) ::
        Cost(g, t, w) <= Cost(g, t, v)
  }

  /** Some choice is wanted if some tiling is. */
  lemma WantedExists(g: Grammar, t: Tree, s: Graph, lo: nat, c: nat, hi: nat, want: Option<nat>)
    requires Built(g, t, s, lo, c, hi) && (if want.Some? then Makes(g, t, want.value) else Tileable(g, t))
    ensures exists x :: x in s.succ[c] && x < |s.succ| && Wanted(g, s, x, want)
  {
    hide Built;
    BuiltTop(g, t, s, lo, c, hi);
    if want.Some? {
      MakesByChoice(g, t, s, lo, c, hi, want.value);
    } else {
      var w :| Covers(g, t, w);
      assert Chosen(s, c, w.rule);
    }
  }

  /** The cheapest choice, completed by optimal tilings of its operands, is optimal. */
  lemma ChoiceIsOptimal(g: Grammar, t: Tree, s: Graph, lo: nat, c: nat, hi: nat, want: Option<nat>, x: nat, w: Tiling)
    requires Built(g, t, s, lo, c, hi) && CheapestChoice(g, s, c, want, x) && Covers(g, t, w) && w.rule == s.rule[x]
    requires Cost(g, t, w) == s.cost[x]
    ensures Optimal(g, t, want, w)
  {
    hide Built, Cost, ChoiceOk;
    forall v | Covers(g, t, v) && (want.Some? ==> g.rules[v.rule].dst == want.value)
      ensures Cost(g, t, w) <= Cost(g, t, v)
    {
      var y := ChoiceBelow(g, t, s, lo, c, hi, v);
    }
  }

  /** The optimal tilings of the operands make up the cost of the choice. */
  lemma PartsAddUp(g: Grammar, t: Tree, s: Graph, x: nat, w: Tiling)
    requires ChoiceOk(g, t, s, x) && w.rule == s.rule[x]
    requires match t
             case Unary(_, _, a) => |w.parts| == 1 && Optimal(g, a, Some(g.rules[w.rule].src1), w.parts[0])
             case Binary(_, _, a, b) => |w.parts| == 2 && Optimal(g, a, Some(g.rules[w.rule].src1), w.parts[0])
               && Optimal(g, b, Some(g.rules[w.rule].src2), w.parts[1])
             case _ => w.parts == []
    ensures Covers(g, t, w) && Cost(g, t, w) == s.cost[x]
  {
    assert Covers(g, t, w);
    var v :| Covers(g, t, v) && v.rule == s.rule[x] && Cost(g, t, v) == s.cost[x];
    CostAtLeast(g, t, w, v);
  }

  lemma CostAtLeast(g: Grammar, t: Tree, w: Tiling, v: Tiling)
    requires Covers(g, t, w) && Covers(g, t, v) && w.rule == v.rule
    requires t.Unary? ==> Optimal(g, t.src1, Some(g.rules[w.rule].src1), w.parts[0])
    requires t.Binary? ==> Optimal(g, t.src1, Some(g.rules[w.rule].src1), w.parts[0])
    requires t.Binary? ==> Optimal(g, t.src2, Some(g.rules[w.rule].src2), w.parts[1])
    ensures Cost(g, t, w) <= Cost(g, t, v)
  {
  }

  /** The operands of a choice make what its rule needs. */
  lemma ChoiceNeeds(g: Grammar, t: Tree, s: Graph, x: nat)
    requires ChoiceOk(g, t, s, x)
    ensures s.rule[x] < |g.rules|
    ensures t.Unary? ==> Makes(g, t.src1, g.rules[s.rule[x]].src1)
    ensures t.Binary? ==> Makes(g, t.src1, g.rules[s.rule[x]].src1) && Makes(g, t.src2, g.rules[s.rule[x]].src2)
  {
    var v :| Covers(g, t, v) && v.rule == s.rule[x];
  }

  class Tiler {
    const g: Grammar
    var succ: seq<seq<nat>>             // cost_graph
    var rule: seq<nat>                  // cost_rules
    var cost: seq<nat>                  // accumulated_cost
    var labels: map<nat, set<nat>>      // igraph_labels

    constructor (g: Grammar)
      requires g.Valid()
      ensures this.g == g && Valid() && View() == Graph([], [], []) && labels == map[]
    {
      this.g := g;
      succ, rule, cost, labels := [], [], [], map[];
    }

    function View(): Graph
      reads this
    {
      Graph(succ, rule, cost)
    }

    ghost predicate Valid()
      reads this
    {
      g.Valid() && View().Shaped()
    }

    method NewNode() returns (n: nat)
      requires Valid()
      modifies this`succ, this`rule, this`cost
      ensures Valid() && n == old(|succ|) && View() == WithNode(old(View()))
    {
      n := |succ|;
      succ, rule, cost := succ + [[]], rule + [0], cost + [0];
    }

    /** A choice of rule `r` for node `c`. */
    method NewChoice(c: nat, r: nat, m: nat, kids: seq<nat>)
      requires Valid() && c < |succ|
      modifies this`succ, this`rule, this`cost
      ensures Valid() && View() == AddChoice(old(View()), c, r, m, kids)
    {
      var x := NewNode();
      rule := rule[x := r];
      succ := succ[c := succ[c] + [x]];
      succ := succ[x := kids];
      cost := cost[x := m];
    }

    /** Some label of tree node `id` is a rule that makes `d`. */
    method MatchSubtreeLabels(id: nat, d: nat) returns (yes: bool)
      requires forall r | r in LabelsOf(labels, id) :: r < |g.rules|
      ensures yes <==> exists r :: r in LabelsOf(labels, id) && r < |g.rules| && g.rules[r].dst == d
    {
      var todo := LabelsOf(labels, id);
      yes := false;
      while todo != {}
        invariant todo <= LabelsOf(labels, id)
        invariant forall r | r in LabelsOf(labels, id) && r !in todo && r < |g.rules| :: g.rules[r].dst != d
      {
        var r := AnyOf(todo);
        if g.rules[r].dst == d { return true; }
        todo := todo - {r};
      }
    }

    /** Tile a value. */
    method TileLeaf(t: Tree) returns (ok: bool, c: nat)
      requires Valid() && t.Leaf? && NoLabels(t, labels)
      modifies this
      ensures Valid() && (ok <==> Tileable(g, t))
      ensures ok ==> TiledAs(g, t, old(View()), View(), c, old(labels), labels)
    {
      hide AtNode, TiledAs, LabelsOf, Tileable;
      ghost var was, before := View(), labels;
      var list := g.byOperation(0);
      StartLeaf(g, t, was, labels, list);
      c := NewNode();
      for i := 0 to |list|
        invariant Valid() && c == |was.succ| < |succ|
        invariant AtNode(g, t, was, View(), c, [], c + 1, before, labels, list, i)
      {
        var r := list[i];
        if g.fits(t.id, r) {
          LeastLeaf(g, t, r);
          NodeAdds(g, t, was, View(), c, [], c + 1, before, labels, list, i, g.rules[r].cost);
          labels := labels[t.id := LabelsOf(labels, t.id) + {r}];
          NewChoice(c, r, g.rules[r].cost, []);
        } else {
          NodeSkips(g, t, was, View(), c, [], c + 1, before, labels, list, i);
        }
      }
      NodeDone(g, t, was, View(), c, [], c + 1, before, before, labels);
      ok := succ[c] != [];
    }

    /** Tile an operation without operands: the first rule listed is taken. */
    method TileNullary(t: Tree) returns (ok: bool, c: nat)
      requires Valid() && t.Nullary?
      modifies this
      ensures Valid() && (ok <==> Tileable(g, t))
      ensures ok ==> TiledAs(g, t, old(View()), View(), c, old(labels), labels)
    {
      hide TiledAs;
      ghost var was := View();
      c := NewNode();
      var list := g.byOperation(t.op);
      if list == [] { return false, c; }
      NewChoice(c, list[0], g.rules[list[0]].cost, []);
      NullaryDone(g, t, was, labels, list[0]);
      ok := true;
    }

    /** The cost of rule `r` on top of the cheapest choices for its operands. */
    method AccumulatedCost(t: Tree, r: nat, kids: seq<nat>, ghost lo: nat, ghost hi: nat,
                           ghost most: nat) returns (m: nat)
      requires Valid() && KidsBuilt(g, t, View(), lo, kids, hi) && Cheap(g, t, most) && Usable(g, t, r) && 0 < |kids|
      ensures LeastWith(g, t, r, m)
    {
      hide Built, Usable, Cheap, LeastWith, Making, CheapestMaking, Allowed;
      ghost var s := View();
      UsableIsAllowed(g, t, r);
      KidChoices(g, t, s, lo, kids, hi, most, 0);
      KidMakes(g, t, s, lo, kids, hi, r, 0);
      var min1 := MinCost(g, View(), kids[0], g.rules[r].src1);
      var min2 := 0;
      if |kids| == 2 {
        KidChoices(g, t, s, lo, kids, hi, most, 1);
        KidMakes(g, t, s, lo, kids, hi, r, 1);
        min2 := MinCost(g, View(), kids[1], g.rules[r].src2);
      }
      m := min1 + min2 + g.rules[r].cost;
      assert PricedBy(g, t, s, r, kids, m);
      PriceIsLeast(g, t, s, lo, kids, hi, r, m);
    }

    /** Go through the rules for an operation whose operands have been tiled. */
    method TileRules(t: Tree, c: nat, kids: seq<nat>, ghost was: Graph, ghost h: nat, ghost most: nat)
      requires Valid() && (t.Unary? || t.Binary?) && Cheap(g, t, most) && was.Shaped() && c == |was.succ|
      requires AtNode(g, t, was, View(), c, kids, h, labels, labels, g.byOperation(t.op), 0)
      modifies this
      ensures Valid()
      ensures AtNode(g, t, was, View(), c, kids, h, old(labels), labels, g.byOperation(t.op), |g.byOperation(t.op)|)
    {
      hide AtNode, LabelsOf, Cheap, Usable, LeastWith, Built, MadeBy;
      ghost var before := labels;
      var list := g.byOperation(t.op);
      for i := 0 to |list|
        invariant Valid() && AtNode(g, t, was, View(), c, kids, h, before, labels, list, i)
      {
        AtNodeShape(g, t, was, View(), c, kids, h, before, labels, list, i);
        var r := list[i];
        UsableByLabels(g, t, was, View(), c, kids, h, before, labels, list, i, r);
        var usable := g.fits(t.id, r) && (g.rules[r].src2 != 0 <==> |kids| == 2);
        if usable {
          KidLabelsAreRules(g, t, was, View(), c, kids, h, before, labels, list, i, 0);
          usable := MatchSubtreeLabels(KidId(t, 0), g.rules[r].src1);
          assert usable <==> MadeBy(g, labels, KidId(t, 0), g.rules[r].src1) by {
            MadeByMeans(g, labels, KidId(t, 0), g.rules[r].src1);
          }
          if usable && |kids| == 2 {
            KidLabelsAreRules(g, t, was, View(), c, kids, h, before, labels, list, i, 1);
            usable := MatchSubtreeLabels(KidId(t, 1), g.rules[r].src2);
            assert usable <==> MadeBy(g, labels, KidId(t, 1), g.rules[r].src2) by {
              MadeByMeans(g, labels, KidId(t, 1), g.rules[r].src2);
            }
          }
        }
        assert usable <==> Usable(g, t, r);
        if usable {
          UsableIsAllowed(g, t, r);
          var m := AccumulatedCost(t, r, kids, c + 1, h, most);
          NodeAdds(g, t, was, View(), c, kids, h, before, labels, list, i, m);
          labels := labels[t.id := LabelsOf(labels, t.id) + {r}];
          NewChoice(c, r, m, kids);
        } else {
          NodeSkips(g, t, was, View(), c, kids, h, before, labels, list, i);
        }
      }
    }

    /** Tile an operation: its operands first, then the operation itself. */
    method TileOperation(t: Tree, ghost most: nat) returns (ok: bool, c: nat)
      requires Valid() && !t.Leaf? && DistinctIds(t) && OperandsOk(t) && NoLabels(t, labels) && Cheap(g, t, most)
      modifies this
      ensures Valid() && (ok <==> Tileable(g, t))
      ensures ok ==> TiledAs(g, t, old(View()), View(), c, old(labels), labels)
      decreases t, 0
    {
      if t.Nullary? {
        ok, c := TileNullary(t);
        return;
      }
      hide TiledAs, AtNode, Cheap, LabelsOf, Tileable;
      ghost var was, before := View(), labels;
      SubtreesCheap(g, t, most);
      NoTilingWithoutParts(g, t);
      c := NewNode();
      var k, j;
      ok, k := RecursiveTile(t.src1, most);
      if !ok { return; }
      ghost var mid, half := View(), labels;
      var kids := [k];
      if t.Binary? {
        LabelsElsewhere(g, t.src1, WithNode(was), mid, k, before, half);
        ok, j := RecursiveTile(t.src2, most);
        if !ok { return; }
        kids := [k, j];
        LabelsElsewhere(g, t.src2, mid, View(), j, half, labels);
        StartBinary(g, t, was, mid, View(), k, j, before, half, labels, g.byOperation(t.op));
      } else {
        StartUnary(g, t, was, View(), k, before, labels, g.byOperation(t.op));
      }
      LabelsElsewhere(g, t.src1, WithNode(was), mid, k, before, half);
      ghost var h, start := |succ|, labels;
      TileRules(t, c, kids, was, h, most);
      NodeDone(g, t, was, View(), c, kids, h, before, start, labels);
      ok := succ[c] != [];
    }

    method RecursiveTile(t: Tree, ghost most: nat) returns (ok: bool, c: nat)
      requires Valid() && DistinctIds(t) && OperandsOk(t) && NoLabels(t, labels) && Cheap(g, t, most)
      modifies this
      ensures Valid() && (ok <==> Tileable(g, t))
      ensures ok ==> TiledAs(g, t, old(View()), View(), c, old(labels), labels)
      decreases t, 1
    {
      if t.Leaf? { ok, c := TileLeaf(t); } else { ok, c := TileOperation(t, most); }
    }

    /** No choice before number `i` makes what is wanted as cheaply. */
    ghost predicate FirstAsCheap(i: nat, edges: seq<nat>, want: Option<nat>)
      requires Valid() && i < |edges| && forall x | x in edges :: x < |succ| && rule[x] < |g.rules|
      reads this
    {
      forall k | 0 <= k < i && edges[k] < |cost| && edges[i] < |cost| && Wanted(g, View(), edges[k], want) ::
        cost[edges[i]] < cost[edges[k]]
    }

    /** The first of the cheapest choices that make what is wanted. */
    method LeastExpensiveChoice(c: nat, want: Option<nat>) returns (ok: bool, best: nat)
      requires Valid() && c < |succ|
      requires forall x | x in succ[c] :: x < |succ| && rule[x] < |g.rules| && cost[x] < LIMIT
      ensures ok <==> exists x :: x in succ[c] && x < |succ| && Wanted(g, View(), x, want)
      ensures ok ==> CheapestChoice(g, View(), c, want, best)
      ensures ok ==> exists i: nat :: i < |succ[c]| && succ[c][i] == best && FirstAsCheap(i, succ[c], want)
    {
      var min := LIMIT;
      ghost var at: nat := 0;
      var edges := succ[c];
      ok, best := false, 0;
      for i := 0 to |edges|
        invariant !ok ==> min == LIMIT && forall k | 0 <= k < i :: !Wanted(g, View(), edges[k], want)
        invariant ok ==> best in edges && best < |succ| && Wanted(g, View(), best, want) && min == cost[best]
        invariant ok ==> forall k | 0 <= k < i && edges[k] < |cost| && Wanted(g, View(), edges[k], want) ::
                  min <= cost[edges[k]]
        invariant ok ==> at < i && edges[at] == best && FirstAsCheap(at, edges, want)
      {
        var x := edges[i];
        assert x in succ[c];
        var wanted := want.None? || g.rules[rule[x]].dst == want.value;
        assert wanted <==> Wanted(g, View(), x, want);
        if wanted && cost[x] < min {
          min := cost[x];
          ok, best, at := true, x, i;
        }
      }
    }

    /** Pick rules from node `c` down: the tiling emitted is optimal, and a matching choice is always found. */
    method MakeIntermediateRepresentation(ghost t: Tree, c: nat, want: Option<nat>, ghost lo: nat, ghost hi: nat,
                                          ghost most: nat)
      returns (ok: bool, w: Tiling)
      requires Valid() && Built(g, t, View(), lo, c, hi) && Cheap(g, t, most)
      requires if want.Some? then Makes(g, t, want.value) else Tileable(g, t)
      ensures ok && Optimal(g, t, want, w)
      decreases t
    {
      hide Built, Cheap, Optimal, Makes, Tileable, Covers, LeastWith, CheapestChoice, Wanted;
      ghost var s := View();
      BuiltTop(g, t, s, lo, c, hi);
      TopIsCheap(g, t, s, lo, c, hi, most);
      WantedExists(g, t, s, lo, c, hi, want);
      var x;
      ok, x := LeastExpensiveChoice(c, want);
      ChosenIsChoice(g, t, s, lo, c, hi, want, x);
      ChoiceNeeds(g, t, s, x);
      SubtreesCheap(g, t, most);
      ChoiceKids(g, t, s, lo, c, hi, x);
      var parts: seq<Tiling> := [];
      if |succ[x]| > 0 {
        var fine, w1 := MakeIntermediateRepresentation(t.src1, succ[x][0], Some(g.rules[rule[x]].src1), lo, hi, most);
        parts := [w1];
        if |succ[x]| > 1 {
          var w2;
          fine, w2 := MakeIntermediateRepresentation(t.src2, succ[x][1], Some(g.rules[rule[x]].src2), lo, hi, most);
          parts := [w1, w2];
        }
      }
      w := Tiling(rule[x], parts);
      PartsAddUp(g, t, s, x, w);
      ChoiceIsOptimal(g, t, s, lo, c, hi, want, x, w);
    }
  }

  /** The whole of tiling: it succeeds exactly if the tree can be tiled, and emits a cheapest tiling. */
  method TileTree(g: Grammar, t: Tree, ghost most: nat) returns (ok: bool, w: Tiling)
    requires g.Valid() && DistinctIds(t) && OperandsOk(t) && Cheap(g, t, most)
    ensures ok <==> Tileable(g, t)
    ensures ok ==> Optimal(g, t, None, w)
  {
    hide Cheap, Tileable, Optimal, Built;
    var tiler := new Tiler(g);
    var c;
    ok, c := tiler.RecursiveTile(t, most);
    if ok {
      ok, w := tiler.MakeIntermediateRepresentation(t, c, None, c, |tiler.succ|, most);
    } else {
      w := Tiling(0, []);
    }
  }

  lemma LabelsElsewhere(g: Grammar, t: Tree, was: Graph, s: Graph, c: nat, before: map<nat, set<nat>>,
                        labels: map<nat, set<nat>>)
    requires TiledAs(g, t, was, s, c, before, labels)
    ensures forall id | id !in Ids(t) :: LabelsOf(labels, id) == LabelsOf(before, id)
  {
  }

  lemma TopIsCheap(g: Grammar, t: Tree, s: Graph, lo: nat, c: nat, hi: nat, most: nat)
    requires Built(g, t, s, lo, c, hi) && Cheap(g, t, most)
    ensures forall x | x in s.succ[c] :: x < |s.succ| && s.rule[x] < |g.rules| && s.cost[x] < LIMIT
  {
    hide Cheap, LeastWith;
    BuiltTop(g, t, s, lo, c, hi);
    ChoicesCheap(g, t, s, lo, c, hi, most);
  }

  lemma ChosenIsChoice(g: Grammar, t: Tree, s: Graph, lo: nat, c: nat, hi: nat, want: Option<nat>, x: nat)
    requires Built(g, t, s, lo, c, hi) && CheapestChoice(g, s, c, want, x)
    ensures x in s.succ[c] && x < |s.succ| && ChoiceOk(g, t, s, x)
  {
    hide LeastWith;
    BuiltTop(g, t, s, lo, c, hi);
  }

  lemma ChoiceKids(g: Grammar, t: Tree, s: Graph, lo: nat, c: nat, hi: nat, x: nat)
    requires Built(g, t, s, lo, c, hi) && x in s.succ[c]
    ensures x < |s.succ| && KidsBuilt(g, t, s, lo, s.succ[x], hi)
  {
    hide LeastWith;
  }

  lemma UsableIsAllowed(g: Grammar, t: Tree, r: nat)
    requires Usable(g, t, r)
    ensures Allowed(g, t, r) && r < |g.rules|
  {
  }

  lemma MadeByMeans(g: Grammar, labels: map<nat, set<nat>>, id: nat, d: nat)
    ensures MadeBy(g, labels, id, d) <==> exists r :: r in LabelsOf(labels, id) && r < |g.rules| && g.rules[r].dst == d
  {
  }

  lemma AtNodeShape(g: Grammar, t: Tree, was: Graph, s: Graph, c: nat, kids: seq<nat>, h: nat,
                    before: map<nat, set<nat>>, labels: map<nat, set<nat>>, list: seq<nat>, i: nat)
    requires AtNode(g, t, was, s, c, kids, h, before, labels, list, i)
    ensures c < |s.succ| && KidsBuilt(g, t, s, c + 1, kids, h)
    ensures t.Unary? ==> |kids| == 1
    ensures t.Binary? ==> |kids| == 2
  {
    hide Built, Collecting;
  }
}
