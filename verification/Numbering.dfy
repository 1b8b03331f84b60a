/** Reverse-postorder numbering by depth-first search (make_rpo, ssa.c:357-371, and its use in ssa.c:390-398). Blocks
    are numbered downwards as they are finished, so a block that leads to an unvisited one gets a smaller number than
    it. */
module Numbering {
  import opened Cfgs
  import opened Dominance

  /** What the rest of the pass needs of the numbers: reachable blocks have distinct numbers, and each of
      them but block 0 has a reachable predecessor with a smaller one. */
  ghost predicate Numbered(g: Cfg, rpos: seq<int>) {
    && |rpos| == |g.succ|
    && (forall a | 0 <= a < |rpos| && Reachable(g, a) :: 0 <= rpos[a] < |rpos|)
    && (forall a, b | 0 <= a < |rpos| && 0 <= b < |rpos| && Reachable(g, a) && Reachable(g, b) ::
          rpos[a] == rpos[b] ==> a == b)
    && (forall b | 0 < b < |rpos| && Reachable(g, b) :: exists p :: ForwardPred(g, rpos, p, b))
  }

  ghost predicate ForwardPred(g: Cfg, rpos: seq<int>, p: nat, b: nat) {
    g.Edge(p, b) && Reachable(g, p) && p < |rpos| && b < |rpos| && rpos[p] < rpos[b]
  }

  /** `done` are the finished blocks; they hold the numbers above `pos`. */
  ghost predicate Finished(rpos: seq<int>, done: set<nat>, pos: int) {
    && (forall x | x in done :: x < |rpos| && pos < rpos[x] < |rpos|)
    && (forall x, y | x in done && y in done && rpos[x] == rpos[y] :: x == y)
    && |done| == |rpos| - 1 - pos
  }

  /** `p`, found no later than `x` was finished, leads to `x`. */
  ghost predicate Discovers(g: Cfg, rpos: seq<int>, found: set<nat>, root: nat, p: nat, x: nat) {
    && g.Edge(p, x)
    && (p == root || (p in found && p < |rpos| && x < |rpos| && rpos[p] < rpos[x]))
  }

  /** The blocks of `found` were found by the search from `root`, and `seen` holds their successors. */
  ghost predicate SearchTree(g: Cfg, rpos: seq<int>, found: set<nat>, seen: set<nat>, root: nat) {
    && (forall x | x in found :: x < |rpos|)
    && (forall x | x in found && x != root :: exists p :: Discovers(g, rpos, found, root, p, x))
    && (forall x, y | x in found && g.Edge(x, y) :: y in seen)
  }

  lemma RangeSize(s: set<nat>, n: nat)
    requires forall x | x in s :: x < n
    ensures |s| <= n
    ensures |s| == n ==> forall x: nat | x < n :: x in s
    decreases n
  {
    if n > 0 {
      RangeSize(s - {n - 1}, n - 1);
      if n - 1 in s { assert s == (s - {n - 1}) + {n - 1}; } else { assert s - {n - 1} == s; }
    }
  }

  /** The state of a search: numbers, blocks seen, blocks finished, next number to give. */
  datatype Search = Search(rpos: seq<int>, seen: set<nat>, done: set<nat>, pos: int)

  ghost predicate Consistent(s: Search) {
    s.done <= s.seen && (forall x | x in s.seen :: x < |s.rpos|) && Finished(s.rpos, s.done, s.pos)
  }

  /** From `s` to `t` the blocks `t.done - s.done` were finished and nothing else was numbered. */
  ghost predicate Grown(s: Search, t: Search) {
    && Consistent(t) && |s.rpos| == |t.rpos|
    && s.done <= t.done && s.seen <= t.seen && t.pos <= s.pos
    && (forall x | 0 <= x < |s.rpos| && x !in t.done - s.done :: t.rpos[x] == s.rpos[x])
    && (forall x | x in t.done - s.done :: t.pos < t.rpos[x] <= s.pos)
  }

  /** The result of a whole search from `block`. */
  ghost predicate Searched(g: Cfg, s: Search, t: Search, block: nat) {
    && Grown(s, t) && block in t.seen
    && t.seen - s.seen == t.done - s.done
    && (block in s.seen ==> t.done == s.done)
    && (block !in s.seen ==> block in t.done && t.rpos[block] == t.pos + 1)
    && SearchTree(g, t.rpos, t.done - s.done, t.seen, block)
  }

  /** The search from `block` after its first `e` successors. */
  ghost predicate Scanned(g: Cfg, s: Search, t: Search, block: nat, e: nat)
    requires block < |g.succ|
  {
    && Grown(s, t) && block in t.seen && block !in s.seen && block !in t.done
    && t.seen - s.seen == t.done - s.done + {block}
    && SearchTree(g, t.rpos, t.done - s.done, t.seen, block)
    && (forall k | 0 <= k < e && k < |g.succ[block]| :: g.succ[block][k] in t.seen)
  }

  lemma ScanStep(g: Cfg, s: Search, t: Search, u: Search, block: nat, e: nat)
    requires g.Valid() && |s.rpos| == |g.succ| && Consistent(s) && block < |g.succ| && e < |g.succ[block]|
    requires Scanned(g, s, t, block, e) && Searched(g, t, u, g.succ[block][e])
    ensures Scanned(g, s, u, block, e + 1)
  {
    assert g.succ[block][e] in g.succ[block];
    JoinSearches(g, t.rpos, u.rpos, t.done - s.done, u.done - t.done, t.seen, u.seen, block, g.succ[block][e]);
    assert u.done - s.done == (t.done - s.done) + (u.done - t.done);
    assert u.seen - s.seen == (t.seen - s.seen) + (u.seen - t.seen);
  }

  /** Finishing `block` gives it the next number, below all others. */
  lemma FinishBlock(rpos: seq<int>, done: set<nat>, pos: int, block: nat)
    requires Finished(rpos, done, pos) && block !in done && block < |rpos|
    ensures 0 <= pos < |rpos| && Finished(rpos[block := pos], done + {block}, pos - 1)
  {
    RangeSize(done + {block}, |rpos|);
    assert |done + {block}| == |done| + 1;
  }

  lemma FinishedTree(g: Cfg, r0: seq<int>, r1: seq<int>, found: set<nat>, seen: set<nat>, block: nat)
    requires SearchTree(g, r0, found, seen, block) && |r0| == |r1| && block < |r0| && block !in found
    requires forall x | x in found :: r1[x] == r0[x]
    requires forall y | g.Edge(block, y) :: y in seen
    ensures SearchTree(g, r1, found + {block}, seen, block)
  {
    forall x | x in found && x != block ensures exists p :: Discovers(g, r1, found + {block}, block, p, x) {
      var p :| Discovers(g, r0, found, block, p, x);
      assert Discovers(g, r1, found + {block}, block, p, x);
    }
  }

  lemma ScanEnd(g: Cfg, s: Search, t: Search, u: Search, block: nat)
    requires |s.rpos| == |g.succ| && Consistent(s) && block < |g.succ|
    requires Scanned(g, s, t, block, |g.succ[block]|)
    requires u == Search(t.rpos[block := t.pos], t.seen, t.done + {block}, t.pos - 1)
    ensures 0 <= t.pos && Searched(g, s, u, block)
  {
    FinishBlock(t.rpos, t.done, t.pos, block);
    FinishedTree(g, t.rpos, u.rpos, t.done - s.done, t.seen, block);
    assert u.done - s.done == (t.done - s.done) + {block};
  }

  /** A block seen before needs no search; otherwise the scan of its successors begins. */
  lemma SearchStart(g: Cfg, s: Search, block: nat)
    requires |s.rpos| == |g.succ| && Consistent(s) && block < |g.succ|
    ensures block in s.seen ==> Searched(g, s, s, block)
    ensures block !in s.seen ==> Scanned(g, s, s.(seen := s.seen + {block}), block, 0)
  {
  }

  lemma ScanReady(g: Cfg, s: Search, t: Search, block: nat, e: nat)
    requires g.Valid() && |s.rpos| == |g.succ| && block < |g.succ| && e < |g.succ[block]|
    requires Scanned(g, s, t, block, e)
    ensures g.succ[block][e] < |g.succ| && Consistent(t) && block in t.seen && t.seen <= AllBlocks(|g.succ|)
    ensures s.seen < t.seen
  {
    hide SearchTree, Finished;
    assert g.succ[block][e] in g.succ[block];
  }

  method MakeRpo(g: Cfg, rpos: array<int>, visited: array<bool>, pos: int, block: nat,
                 ghost seen: set<nat>, ghost done: set<nat>)
    returns (newPos: int, ghost newSeen: set<nat>, ghost newDone: set<nat>)
    requires g.Valid() && rpos.Length == visited.Length == |g.succ| && rpos as object != visited
    requires block < rpos.Length
    requires forall x | 0 <= x < visited.Length :: visited[x] <==> x in seen
    requires Consistent(Search(rpos[..], seen, done, pos))
    modifies rpos, visited
    ensures forall x | 0 <= x < visited.Length :: visited[x] <==> x in newSeen
    ensures Searched(g, Search(old(rpos[..]), seen, done, pos), Search(rpos[..], newSeen, newDone, newPos), block)
    decreases AllBlocks(rpos.Length) - seen
  {
    hide Cfg.Valid, Consistent, Searched, Scanned;
    newPos, newSeen, newDone := pos, seen, done;
    ghost var s := Search(rpos[..], seen, done, pos);
    SearchStart(g, s, block);
    if visited[block] {
      return;
    }
    visited[block] := true;
    newSeen := seen + {block};
    ghost var t := Search(rpos[..], newSeen, newDone, newPos);
    for e := 0 to |g.succ[block]|
      invariant t == Search(rpos[..], newSeen, newDone, newPos)
      invariant forall x | 0 <= x < visited.Length :: visited[x] <==> x in newSeen
      invariant Scanned(g, s, t, block, e)
    {
      ScanReady(g, s, t, block, e);
      newPos, newSeen, newDone := MakeRpo(g, rpos, visited, newPos, g.succ[block][e], newSeen, newDone);
      ghost var u := Search(rpos[..], newSeen, newDone, newPos);
      ScanStep(g, s, t, u, block, e);
      t := u;
    }
    ScanEnd(g, s, t, Search(t.rpos[block := newPos], newSeen, newDone + {block}, newPos - 1), block);
    rpos[block] := newPos;
    assert rpos[..] == t.rpos[block := newPos];
    newPos, newDone := newPos - 1, newDone + {block};
  }

  lemma JoinSearches(g: Cfg, r0: seq<int>, r1: seq<int>, new0: set<nat>, new1: set<nat>,
                     seen0: set<nat>, seen1: set<nat>, root: nat, child: nat)
    requires |r0| == |r1| && new0 !! new1 && seen0 <= seen1 && root !in new1
    requires SearchTree(g, r0, new0, seen0, root) && SearchTree(g, r1, new1, seen1, child)
    requires forall x | 0 <= x < |r0| && x !in new1 :: r1[x] == r0[x]
    requires g.Edge(root, child) && (new1 != {} ==> child in new1)
    requires forall x | x in new1 && x != child :: r1[child] < r1[x]
    ensures SearchTree(g, r1, new0 + new1, seen1, root)
  {
    forall x | x in new0 + new1 && x != root
      ensures exists p :: Discovers(g, r1, new0 + new1, root, p, x)
    {
      if x in new0 {
        var p :| Discovers(g, r0, new0, root, p, x);
        assert Discovers(g, r1, new0 + new1, root, p, x);
      } else if x == child {
        assert Discovers(g, r1, new0 + new1, root, root, x);
      } else {
        var p :| Discovers(g, r1, new1, child, p, x);
        assert Discovers(g, r1, new0 + new1, root, p, x);
      }
    }
  }

  lemma {:induction false} FoundReachable(g: Cfg, rpos: seq<int>, found: set<nat>, seen: set<nat>, x: nat)
    requires g.Valid() && |rpos| == |g.succ| && SearchTree(g, rpos, found, seen, 0)
    requires x in found && forall y | y in found :: 0 <= rpos[y]
    ensures Reachable(g, x)
    decreases rpos[x]
  {
    if x == 0 {
      ZeroReachable(g);
    } else {
      var p :| Discovers(g, rpos, found, 0, p, x);
      if p == 0 { ZeroReachable(g); } else { FoundReachable(g, rpos, found, seen, p); }
      ReachableStep(g, p, x);
    }
  }

  lemma SearchIsNumbering(g: Cfg, rpos: seq<int>, done: set<nat>, pos: int)
    requires g.Valid() && |rpos| == |g.succ| && Finished(rpos, done, pos)
    requires SearchTree(g, rpos, done, done, 0) && 0 in done && rpos[0] == pos + 1
    ensures forall x: nat :: x in done <==> x < |rpos| && Reachable(g, x)
    ensures Numbered(g, rpos)
    ensures forall a | a in done :: 0 < rpos[a] || forall x: nat | x < |rpos| :: x in done
  {
    RangeSize(done, |rpos|);
    forall x: nat ensures x in done <==> x < |rpos| && Reachable(g, x) {
      if x in done { FoundReachable(g, rpos, done, done, x); }
      if Reachable(g, x) { ReachableIn(g, done, x); }
    }
    forall b | 0 < b < |rpos| && Reachable(g, b) ensures exists p :: ForwardPred(g, rpos, p, b) {
      var p :| Discovers(g, rpos, done, 0, p, b);
      assert ForwardPred(g, rpos, p, b);
    }
  }

  /** Position `rpos[b]` of `order` holds `b`, for every reachable `b`. Blocks the search never reached keep
      number 0, so other positions may hold an unreached block or the initial 0. */
  ghost predicate Orders(g: Cfg, rpos: seq<int>, order: seq<nat>) {
    && |order| == |rpos| == |g.succ|
    && (forall b: nat | b < |rpos| && Reachable(g, b) :: 0 <= rpos[b] < |rpos| && order[rpos[b]] == b)
    && (forall i | 0 <= i < |order| ::
          order[i] < |rpos| && (order[i] == 0 || !Reachable(g, order[i]) || rpos[order[i]] == i))
  }

  /** Unreached blocks keep number 0, and share it with no reachable block. */
  ghost predicate UnreachedAtZero(g: Cfg, rpos: seq<int>) {
    && (forall b | 0 <= b < |rpos| && !Reachable(g, b) :: rpos[b] == 0)
    && (forall a, b | 0 <= a < |rpos| && 0 <= b < |rpos| && Reachable(g, a) && !Reachable(g, b) :: 0 < rpos[a])
  }

  lemma SearchFromStart(g: Cfg, s: Search, t: Search)
    requires g.Valid() && |s.rpos| == |g.succ| && s.seen == {} && s.done == {}
    requires (forall i | 0 <= i < |s.rpos| :: s.rpos[i] == 0) && Searched(g, s, t, 0)
    ensures Numbered(g, t.rpos) && UnreachedAtZero(g, t.rpos)
  {
    SearchResult(g, s, t);
    hide Reachable, SearchTree, Finished, Searched, Numbered, Cfg.Valid;
    SearchIsNumbering(g, t.rpos, t.done, t.pos);
  }

  /** A search that starts with nothing seen. */
  lemma SearchResult(g: Cfg, s: Search, t: Search)
    requires |s.rpos| == |g.succ| && s.seen == {} && s.done == {} && Searched(g, s, t, 0)
    requires forall i | 0 <= i < |s.rpos| :: s.rpos[i] == 0
    ensures |t.rpos| == |g.succ| && Finished(t.rpos, t.done, t.pos) && SearchTree(g, t.rpos, t.done, t.done, 0)
    ensures 0 in t.done && t.rpos[0] == t.pos + 1 && forall x | 0 <= x < |t.rpos| && x !in t.done :: t.rpos[x] == 0
  {
    hide SearchTree, Finished;
    assert t.done - {} == t.done && t.seen - {} == t.seen;
  }

  method NumberBlocks(g: Cfg) returns (rpos: array<int>)
    requires g.Valid()
    ensures fresh(rpos) && Numbered(g, rpos[..]) && UnreachedAtZero(g, rpos[..])
  {
    hide Searched, Numbered, UnreachedAtZero;
    rpos := new int[|g.succ|](_ => 0);
    ghost var s := Search(rpos[..], {}, {}, |g.succ| - 1);
    var visited := new bool[|g.succ|](_ => false);
    ghost var pos, seen, done := MakeRpo(g, rpos, visited, |g.succ| - 1, 0, {}, {});
    SearchFromStart(g, s, Search(rpos[..], seen, done, pos));
  }

  /** The same facts about the numbers, with the reachable blocks as a set. */
  ghost predicate NumberedIn(rpos: seq<int>, live: set<int>) {
    && (forall b | 0 <= b < |rpos| :: 0 <= rpos[b] < |rpos|)
    && (forall a | a in live :: 0 <= a < |rpos|)
    && (forall a, b | a in live && 0 <= b < |rpos| && a != b :: rpos[a] != rpos[b])
  }

  method OrderBlocks(g: Cfg, rpos: array<int>) returns (order: array<nat>)
    requires g.Valid() && Numbered(g, rpos[..]) && UnreachedAtZero(g, rpos[..])
    ensures fresh(order) && Orders(g, rpos[..], order[..])
  {
    ghost var live := set b | 0 <= b < rpos.Length && Reachable(g, b);
    assert NumberedIn(rpos[..], live);
    order := FillOrder(rpos, live);
  }

  method FillOrder(rpos: array<int>, ghost live: set<int>) returns (order: array<nat>)
    requires NumberedIn(rpos[..], live)
    ensures fresh(order) && order.Length == rpos.Length
    ensures forall b | b in live :: 0 <= b < rpos.Length && 0 <= rpos[b] < order.Length && order[rpos[b]] == b
    ensures forall i | 0 <= i < order.Length :: order[i] == 0 || (order[i] < rpos.Length && rpos[order[i]] == i)
  {
    order := new nat[rpos.Length](_ => 0);
    for i := 0 to rpos.Length
      invariant forall b | b in live && b < i :: order[rpos[b]] == b
      invariant forall k | 0 <= k < order.Length :: order[k] == 0 || (order[k] < rpos.Length && rpos[order[k]] == k)
    {
      order[rpos[i]] := i;
    }
  }
}
