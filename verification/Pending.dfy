/** One round of coalescing: choosing which live ranges to merge (ssa.c:1521-1531, 1630-1722). */
module Pending {
  import opened Ir
  import opened EdgeMatrix
  import opened Interference
  import opened Basics

  /** Live ranges to rename, as the map of pending coalesces. */
  type Renames = map<nat, nat>

  function Rep(pending: Renames, v: nat): nat {
    if v in pending then pending[v] else v
  }

  /** Renaming leads to vregs of the same class and type that are not renamed further. */
  ghost predicate SettledAt(n: nat, c: Context, pending: Renames, v: nat)
    requires v in pending
  {
    && RESERVED < v <= n && RESERVED < pending[v] <= n && c.ClassOf(v) == c.ClassOf(pending[v])
    && c.TypeOf(v) == c.TypeOf(pending[v]) && Rep(pending, pending[v]) == pending[v]
  }

  ghost predicate Settled(n: nat, c: Context, pending: Renames) {
    forall v | v in pending :: SettledAt(n, c, pending, v)
  }

  /** Interfering vregs keep different representatives, and the current graph has an edge between these. */
  ghost predicate CoversMembers(original: set<Edge>, current: set<Edge>, pending: Renames) {
    forall a: nat, b: nat | a != b && Has(original, a, b) ::
      Rep(pending, a) != Rep(pending, b) && Has(current, Rep(pending, a), Rep(pending, b))
  }

  /** Vregs that must be in some register are not merged with any other. */
  ghost predicate ClobberedAlone(clobbers: seq<bool>, pending: Renames) {
    forall v | 0 <= v < |clobbers| && clobbers[v] :: v !in pending && forall w | w in pending :: pending[w] != v
  }

  // Merging one pair

  /** `next` renames to `d` whatever `pending` renamed to `s`. */
  ghost predicate MergedInto(pending: Renames, next: Renames, s: nat, d: nat) {
    && (forall v :: v in next <==> v in pending || v == s)
    && forall v: nat :: Rep(next, v) == if Rep(pending, v) == s then d else Rep(pending, v)
  }

  lemma MergeSettled(n: nat, c: Context, pending: Renames, next: Renames, s: nat, d: nat)
    requires Settled(n, c, pending) && MergedInto(pending, next, s, d)
    requires RESERVED < s <= n && RESERVED < d <= n && c.ClassOf(s) == c.ClassOf(d) && c.TypeOf(s) == c.TypeOf(d)
      && Rep(pending, s) == s && Rep(pending, d) == d
    ensures Settled(n, c, next)
  {
    forall v | v in next ensures SettledAt(n, c, next, v) {
      assert Rep(next, v) == next[v];
      assert Rep(pending, Rep(pending, v)) == Rep(pending, v) by {
        if v in pending { assert SettledAt(n, c, pending, v); }
      }
      assert v in pending ==> SettledAt(n, c, pending, v);
      assert Rep(next, d) == d;
    }
  }

  /** `next` has the edges of `current`, and `d` has those of `s`. */
  ghost predicate CopiedEdges(n: nat, current: set<Edge>, next: set<Edge>, s: nat, d: nat) {
    && current <= next
    && (forall i: nat | Vreg(n, i) && i != s && i != d && Has(current, i, s) :: Has(next, i, d))
    && (forall e | e in next && e !in current :: e.1 == d && (Has(current, e.0, s) || e.0 == d))
  }

  lemma MergeCovers(n: nat, original: set<Edge>, current: set<Edge>, next: set<Edge>, pending: Renames,
                    merged: Renames, s: nat, d: nat)
    requires CoversMembers(original, current, pending) && CopiedEdges(n, current, next, s, d)
      && MergedInto(pending, merged, s, d)
    requires !Has(current, s, d) && Within(n, current)
    ensures CoversMembers(original, next, merged)
  {
    forall a: nat, b: nat | a != b && Has(original, a, b)
      ensures Rep(merged, a) != Rep(merged, b) && Has(next, Rep(merged, a), Rep(merged, b))
    {
      var x, y := Rep(pending, a), Rep(pending, b);
      assert x != y && Has(current, x, y);
      if x == s {
        assert Has(current, y, s) && y != d;
      } else if y == s {
        assert Has(current, x, s) && x != d;
      }
    }
  }

  /** Give `d` all edges of `s`, row by row in place. */
  method CopyInterferenceGraphEdges(ig: array<bool>, n: nat, s: nat, d: nat,
                                    ghost edges: set<Edge>) returns (ghost next: set<Edge>)
    requires Draws(ig[..], n, edges) && Vreg(n, s) && Vreg(n, d) && Within(n, edges)
    modifies ig
    ensures Draws(ig[..], n, next) && Within(n, next) && CopiedEdges(n, edges, next, s, d)
  {
    hide Draws;
    next := edges;
    for i := 1 to n + 1
      invariant Draws(ig[..], n, next) && Within(n, next) && edges <= next
      invariant forall k: nat | 1 <= k < i && k != s && k != d && Has(edges, k, s) :: Has(next, k, d)
      invariant forall e | e in next && e !in edges :: e.1 == d && (Has(edges, e.0, s) || e.0 == d)
    {
      var found := Lookup(ig, n, i, s, next);
      if found {
        AddEdge(ig, n, i, d, next);
        next := next + {(i, d)};
      }
    }
  }

  /** Rename to `d` whatever is renamed to `s`, and `s` itself. */
  method UpdatePending(pending: Renames, s: nat, d: nat) returns (next: Renames)
    requires Rep(pending, s) == s
    ensures MergedInto(pending, next, s, d)
  {
    next := pending;
    var todo := pending.Keys;
    while todo != {}
      invariant todo <= pending.Keys && forall v :: v in next <==> v in pending
      invariant forall v | v in pending :: next[v] == if v !in todo && pending[v] == s then d else pending[v]
    {
      var v := AnyOf(todo);
      if next[v] == s { next := next[v := d]; }
      todo := todo - {v};
    }
    next := next[s := d];
  }

  // One round

  /** What is known after some of the candidates: all the properties above, and, once there is a rename, that two
      live ranges which a move joins and which do not interfere have been merged. */
  ghost predicate Progressing(n: nat, c: Context, original: set<Edge>, current: set<Edge>, pending: Renames,
                              clobbers: seq<bool>, candidates: set<Edge>) {
    && Settled(n, c, pending) && CoversMembers(original, current, pending) && ClobberedAlone(clobbers, pending)
    && Within(n, current)
    && (pending == map[] ==> original == current)
    && (pending != map[] ==> SomeMerged(original, pending, candidates))
  }

  ghost predicate SomeMerged(original: set<Edge>, pending: Renames, candidates: set<Edge>) {
    exists d: nat, s: nat :: (d, s) in candidates && !Has(original, s, d) && Rep(pending, s) == Rep(pending, d)
  }

  /** Candidates are pairs of result and source of the same class, and of the same type unless they interfere. */
  ghost predicate CandidatesOk(n: nat, c: Context, original: set<Edge>, candidates: set<Edge>) {
    forall e | e in candidates ::
      && RESERVED < e.0 <= n && RESERVED < e.1 <= n && c.ClassOf(e.0) == c.ClassOf(e.1)
      && (c.TypeOf(e.0) == c.TypeOf(e.1) || Has(original, e.1, e.0))
  }

  lemma RepInRange(n: nat, c: Context, pending: Renames, v: nat)
    requires Settled(n, c, pending) && RESERVED < v <= n
    ensures RESERVED < Rep(pending, v) <= n && c.ClassOf(Rep(pending, v)) == c.ClassOf(v)
      && c.TypeOf(Rep(pending, v)) == c.TypeOf(v)
    ensures Rep(pending, Rep(pending, v)) == Rep(pending, v)
  {
  }

  /** Candidates of different types interfere, and keep doing so. */
  lemma SameTypeMerged(original: set<Edge>, current: set<Edge>, pending: Renames, c: Context, dst: nat, src: nat)
    requires CoversMembers(original, current, pending) && !Has(current, Rep(pending, src), Rep(pending, dst))
    requires c.TypeOf(dst) == c.TypeOf(src) || Has(original, src, dst)
    ensures c.TypeOf(src) == c.TypeOf(dst)
  {
  }

  lemma MergeProgresses(n: nat, c: Context, original: set<Edge>, current: set<Edge>, next: set<Edge>, pending: Renames,
                        merged: Renames, clobbers: seq<bool>, candidates: set<Edge>, dst: nat, src: nat)
    requires Progressing(n, c, original, current, pending, clobbers, candidates)
      && CandidatesOk(n, c, original, candidates)
    requires (dst, src) in candidates && |clobbers| == n + 1
    requires var s, d := Rep(pending, src), Rep(pending, dst);
      && s <= n && d <= n && !clobbers[s] && !clobbers[d] && !Has(current, s, d)
      && CopiedEdges(n, current, next, s, d) && Within(n, next) && MergedInto(pending, merged, s, d)
    ensures Progressing(n, c, original, next, merged, clobbers, candidates)
  {
    hide CopiedEdges, Has;
    var s, d := Rep(pending, src), Rep(pending, dst);
    RepInRange(n, c, pending, src);
    RepInRange(n, c, pending, dst);
    assert c.TypeOf(src) == c.TypeOf(dst) by { SameTypeMerged(original, current, pending, c, dst, src); }
    MergeSettled(n, c, pending, merged, s, d);
    MergeCovers(n, original, current, next, pending, merged, s, d);
    assert s in merged;
    assert ClobberedAlone(clobbers, merged) by { MergeLeavesClobbered(pending, merged, clobbers, s, d); }
    assert SomeMerged(original, merged, candidates) by {
      SomeStayMerged(original, current, pending, merged, candidates, dst, src);
    }
  }

  lemma MergeLeavesClobbered(pending: Renames, merged: Renames, clobbers: seq<bool>, s: nat, d: nat)
    requires ClobberedAlone(clobbers, pending) && MergedInto(pending, merged, s, d) && s < |clobbers| && d < |clobbers|
    requires !clobbers[s] && !clobbers[d] && Rep(pending, s) == s
    ensures ClobberedAlone(clobbers, merged)
  {
    forall v | 0 <= v < |clobbers| && clobbers[v] ensures v !in merged && forall w | w in merged :: merged[w] != v {
      forall w | w in merged ensures merged[w] != v { assert Rep(merged, w) == merged[w]; }
    }
  }

  lemma SomeStayMerged(original: set<Edge>, current: set<Edge>, pending: Renames, merged: Renames,
                       candidates: set<Edge>, dst: nat, src: nat)
    requires pending == map[] ==> original == current
    requires pending != map[] ==> SomeMerged(original, pending, candidates)
    requires (dst, src) in candidates && !Has(current, Rep(pending, src), Rep(pending, dst))
    requires MergedInto(pending, merged, Rep(pending, src), Rep(pending, dst))
    requires Rep(pending, Rep(pending, dst)) == Rep(pending, dst)
    ensures SomeMerged(original, merged, candidates)
  {
    if pending == map[] {
      assert Rep(merged, src) == Rep(merged, dst);
    } else {
      var d: nat, s: nat :| (d, s) in candidates && !Has(original, s, d) && Rep(pending, s) == Rep(pending, d);
      assert Rep(merged, s) == Rep(merged, d);
    }
  }

  /** The live ranges of a candidate that has been looked at are merged, or their representatives interfere, or one of
      these must be in some register. */
  ghost predicate Handled(pending: Renames, current: set<Edge>, clobbers: seq<bool>, e: Edge) {
    var d, s := Rep(pending, e.0), Rep(pending, e.1);
    || (e.1 in pending && s == d) || Has(current, s, d)
    || (s < |clobbers| && clobbers[s]) || (d < |clobbers| && clobbers[d])
  }

  ghost predicate AllHandled(pending: Renames, current: set<Edge>, clobbers: seq<bool>, done: set<Edge>) {
    forall e | e in done :: Handled(pending, current, clobbers, e)
  }

  lemma MergeKeepsHandled(n: nat, current: set<Edge>, next: set<Edge>, pending: Renames, merged: Renames,
                          clobbers: seq<bool>, s: nat, d: nat, e: Edge)
    requires Handled(pending, current, clobbers, e) && Within(n, current) && CopiedEdges(n, current, next, s, d)
      && MergedInto(pending, merged, s, d) && !Has(current, s, d) && s < |clobbers| && d < |clobbers|
      && !clobbers[s] && !clobbers[d]
    ensures Handled(merged, next, clobbers, e)
  {
    var x, y := Rep(pending, e.0), Rep(pending, e.1);
    if Has(current, y, x) && x != y {
      if x == s { assert Has(current, y, s) && y != d; }
      if y == s { assert Has(current, x, s) && x != d; }
    }
  }

  lemma MergeHandles(n: nat, c: Context, current: set<Edge>, next: set<Edge>, pending: Renames, merged: Renames,
                     clobbers: seq<bool>, done: set<Edge>, e: Edge)
    requires Settled(n, c, pending) && RESERVED < e.0 <= n && RESERVED < e.1 <= n
    requires var s, d := Rep(pending, e.1), Rep(pending, e.0);
      && AllHandled(pending, current, clobbers, done) && Within(n, current) && CopiedEdges(n, current, next, s, d)
      && MergedInto(pending, merged, s, d) && !Has(current, s, d) && s < |clobbers| && d < |clobbers|
      && !clobbers[s] && !clobbers[d]
    ensures AllHandled(merged, next, clobbers, done + {e})
  {
    hide Has, CopiedEdges, Within;
    RepInRange(n, c, pending, e.0);
    assert Rep(merged, e.1) == Rep(merged, e.0);
    forall f | f in done + {e} ensures Handled(merged, next, clobbers, f) {
      if f in done {
        MergeKeepsHandled(n, current, next, pending, merged, clobbers, Rep(pending, e.1), Rep(pending, e.0), f);
      }
    }
  }

  /** Live ranges of one class are renamed, and to results of candidates. */
  ghost predicate ToResults(c: Context, kind: Class, pending: Renames, candidates: set<Edge>) {
    forall v | v in pending :: c.ClassOf(v) == kind && IsResult(candidates, pending[v])
  }

  ghost predicate IsResult(candidates: set<Edge>, d: nat) {
    exists s: nat :: (d, s) in candidates
  }

  lemma MergeToResults(c: Context, kind: Class, pending: Renames, merged: Renames, candidates: set<Edge>, dst: nat,
                       src: nat)
    requires ToResults(c, kind, pending, candidates) && (dst, src) in candidates && c.ClassOf(src) == kind
      && MergedInto(pending, merged, Rep(pending, src), Rep(pending, dst)) && c.ClassOf(Rep(pending, src)) == kind
    ensures ToResults(c, kind, merged, candidates)
  {
    assert IsResult(candidates, dst);
    forall v | v in merged ensures c.ClassOf(v) == kind && IsResult(candidates, merged[v]) {
      assert Rep(merged, v) == merged[v];
    }
  }

  /** Go through the candidates in any order and merge those that neither interfere nor need a register. */
  method CoalesceCandidates(ig: array<bool>, n: nat, c: Context, clobbers: array<bool>, candidates: set<Edge>,
                            ghost original: set<Edge>, ghost kind: Class)
    returns (pending: Renames, ghost current: set<Edge>)
    requires Draws(ig[..], n, original) && Within(n, original) && clobbers.Length == n + 1 && clobbers != ig
    requires CandidatesOk(n, c, original, candidates) && forall e | e in candidates :: c.ClassOf(e.0) == kind
    modifies ig, clobbers
    ensures Progressing(n, c, original, current, pending, old(clobbers[..]), candidates)
      && clobbers[..] == old(clobbers[..])
    ensures AllHandled(pending, current, old(clobbers[..]), candidates)
    ensures ToResults(c, kind, pending, candidates)
  {
    hide Draws, Progressing, CandidatesOk, AllHandled, ToResults, MergedInto, CopiedEdges, Has;
    assert AllHandled(map[], original, clobbers[..], {}) && ToResults(c, kind, map[], candidates) by {
      NothingHandled(c, kind, original, clobbers[..], candidates);
    }
    pending, current := map[], original;
    ghost var marks := clobbers[..];
    StartsProgressing(n, c, original, marks, candidates);
    var todo := candidates;
    assert candidates - todo == {};
    while todo != {}
      invariant todo <= candidates && Draws(ig[..], n, current) && clobbers[..] == marks && clobbers.Length == n + 1
      invariant Progressing(n, c, original, current, pending, marks, candidates)
      invariant AllHandled(pending, current, marks, candidates - todo) && ToResults(c, kind, pending, candidates)
    {
      var e := AnyOf(todo);
      ghost var done := candidates - todo;
      todo := todo - {e};
      assert candidates - todo == done + {e};
      var dst, src := e.0, e.1;
      assert (dst, src) in candidates;
      CandidateReps(n, c, original, current, pending, marks, candidates, dst, src);
      var s, d := Rep(pending, src), Rep(pending, dst);
      if !clobbers[s] && !clobbers[d] {
        var interfere := Lookup(ig, n, s, d, current);
        if !interfere {
          var merged := UpdatePending(pending, s, d);
          ghost var next := CopyInterferenceGraphEdges(ig, n, s, d, current);
          clobbers[d] := clobbers[d] || clobbers[s];
          assert clobbers[..] == marks;
          MergeProgresses(n, c, original, current, next, pending, merged, marks, candidates, dst, src);
          MergeHandles(n, c, current, next, pending, merged, marks, done, e);
          MergeToResults(c, kind, pending, merged, candidates, dst, src);
          pending, current := merged, next;
        } else {
          OneMoreHandled(pending, current, marks, done, e);
        }
      } else {
        OneMoreHandled(pending, current, marks, done, e);
      }
    }
    assert candidates - todo == candidates;
  }

  lemma NothingHandled(c: Context, kind: Class, original: set<Edge>, clobbers: seq<bool>, candidates: set<Edge>)
    ensures AllHandled(map[], original, clobbers, {}) && ToResults(c, kind, map[], candidates)
  {
  }

  lemma OneMoreHandled(pending: Renames, current: set<Edge>, clobbers: seq<bool>, done: set<Edge>, e: Edge)
    requires AllHandled(pending, current, clobbers, done) && Handled(pending, current, clobbers, e)
    ensures AllHandled(pending, current, clobbers, done + {e})
  {
    hide Handled;
  }

  lemma CandidateReps(n: nat, c: Context, original: set<Edge>, current: set<Edge>, pending: Renames,
                      clobbers: seq<bool>, candidates: set<Edge>, dst: nat, src: nat)
    requires Progressing(n, c, original, current, pending, clobbers, candidates)
      && CandidatesOk(n, c, original, candidates)
    requires (dst, src) in candidates
    ensures RESERVED < Rep(pending, src) <= n && RESERVED < Rep(pending, dst) <= n && Within(n, current)
    ensures RESERVED < src <= n && RESERVED < dst <= n && c.ClassOf(src) == c.ClassOf(dst) && Settled(n, c, pending)
    ensures Rep(pending, Rep(pending, src)) == Rep(pending, src) && c.ClassOf(Rep(pending, src)) == c.ClassOf(src)
  {
    RepInRange(n, c, pending, src);
    RepInRange(n, c, pending, dst);
  }

  lemma StartsProgressing(n: nat, c: Context, original: set<Edge>, clobbers: seq<bool>, candidates: set<Edge>)
    requires Within(n, original)
    ensures Progressing(n, c, original, original, map[], clobbers, candidates)
  {
  }
}
