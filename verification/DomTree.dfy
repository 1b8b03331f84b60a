/** The tree of links, and walks up it (intersect, ssa.c:373-383). */
module DomTree {
  import opened Cfgs
  import opened Numbering

  /** Links lead to blocks with smaller numbers and end at block 0; -1 marks a block with no link yet. */
  ghost predicate Tree(rpos: seq<int>, t: seq<int>) {
    && 0 < |t| == |rpos| && t[0] == 0
    && (forall b | 0 <= b < |t| && t[b] != -1 :: 0 <= rpos[b])
    && (forall b | 0 < b < |t| && t[b] != -1 :: 0 <= t[b] < |t| && t[t[b]] != -1 && rpos[t[b]] < rpos[b])
  }

  ghost predicate In(t: seq<int>, b: int) {
    0 <= b < |t| && t[b] != -1
  }

  /** `a` is `b` or one of the blocks met when following the links from `b`. */
  ghost predicate Anc(rpos: seq<int>, t: seq<int>, a: int, b: int)
    requires Tree(rpos, t) && In(t, b)
    decreases rpos[b]
  {
    a == b || (b != 0 && Anc(rpos, t, a, t[b]))
  }

  lemma {:induction false} AncRank(rpos: seq<int>, t: seq<int>, a: int, b: int)
    requires Tree(rpos, t) && In(t, b) && Anc(rpos, t, a, b)
    ensures In(t, a) && rpos[a] <= rpos[b] && (a != b ==> rpos[a] < rpos[b])
    decreases rpos[b]
  {
    if a != b { AncRank(rpos, t, a, t[b]); }
  }

  lemma {:induction false} AncRoot(rpos: seq<int>, t: seq<int>, b: int)
    requires Tree(rpos, t) && In(t, b)
    ensures Anc(rpos, t, 0, b)
    decreases rpos[b]
  {
    if b != 0 { AncRoot(rpos, t, t[b]); }
  }

  lemma {:induction false} AncTrans(rpos: seq<int>, t: seq<int>, a: int, b: int, c: int)
    requires Tree(rpos, t) && In(t, b) && In(t, c) && Anc(rpos, t, a, b) && Anc(rpos, t, b, c)
    ensures Anc(rpos, t, a, c)
    decreases rpos[c]
  {
    if b != c { AncTrans(rpos, t, a, b, t[c]); }
  }

  /** The ancestors of a block form a chain. */
  lemma {:induction false} AncLinear(rpos: seq<int>, t: seq<int>, a: int, b: int, c: int)
    requires Tree(rpos, t) && In(t, c) && Anc(rpos, t, a, c) && Anc(rpos, t, b, c)
    requires In(t, a) && In(t, b) && rpos[a] <= rpos[b]
    ensures Anc(rpos, t, a, b)
    decreases rpos[c]
  {
    if b != c {
      AncRank(rpos, t, b, c);
      AncLinear(rpos, t, a, b, t[c]);
    }
  }

  /** `z` is the nearest common ancestor of `i` and `j`. */
  ghost predicate Nearest(rpos: seq<int>, t: seq<int>, z: int, i: int, j: int)
    requires Tree(rpos, t) && In(t, i) && In(t, j)
  {
    && In(t, z) && Anc(rpos, t, z, i) && Anc(rpos, t, z, j)
    && forall x | Anc(rpos, t, x, i) && Anc(rpos, t, x, j) :: Anc(rpos, t, x, z)
  }

  ghost predicate Distinct(rpos: seq<int>, t: seq<int>) {
    forall a, b | In(t, a) && In(t, b) && a < |rpos| && b < |rpos| && rpos[a] == rpos[b] :: a == b
  }

  /** Both walkers are on their chains and no common ancestor has been passed. */
  ghost predicate Walking(rpos: seq<int>, t: seq<int>, f1: int, f2: int, i: int, j: int)
    requires Tree(rpos, t) && In(t, i) && In(t, j)
  {
    && In(t, f1) && In(t, f2) && Anc(rpos, t, f1, i) && Anc(rpos, t, f2, j)
    && forall x | Anc(rpos, t, x, i) && Anc(rpos, t, x, j) :: Anc(rpos, t, x, f1) && Anc(rpos, t, x, f2)
  }

  lemma WalkUp(rpos: seq<int>, t: seq<int>, f1: int, f2: int, i: int, j: int)
    requires Tree(rpos, t) && In(t, i) && In(t, j) && Walking(rpos, t, f1, f2, i, j)
    requires rpos[f1] > rpos[f2]
    ensures f1 != 0 && Walking(rpos, t, t[f1], f2, i, j)
  {
    AncRoot(rpos, t, f2);
    AncRank(rpos, t, 0, f2);
    AncTrans(rpos, t, t[f1], f1, i) by { assert Anc(rpos, t, t[f1], f1); }
    forall x | Anc(rpos, t, x, i) && Anc(rpos, t, x, j) ensures Anc(rpos, t, x, t[f1]) {
      AncRank(rpos, t, x, f2);
    }
  }

  lemma WalkSwap(rpos: seq<int>, t: seq<int>, f1: int, f2: int, i: int, j: int)
    requires Tree(rpos, t) && In(t, i) && In(t, j)
    ensures Walking(rpos, t, f1, f2, i, j) <==> Walking(rpos, t, f2, f1, j, i)
  {
  }

  method Intersect(rpos: array<int>, idoms: array<int>, i: int, j: int) returns (f1: int)
    requires Tree(rpos[..], idoms[..]) && Distinct(rpos[..], idoms[..])
    requires In(idoms[..], i) && In(idoms[..], j)
    ensures In(idoms[..], f1) && Nearest(rpos[..], idoms[..], f1, i, j)
  {
    ghost var r, t := rpos[..], idoms[..];
    f1 := i;
    var f2 := j;
    while f1 != f2
      invariant Walking(r, t, f1, f2, i, j)
      decreases r[f1] + r[f2]
    {
      ghost var start := (f1, f2);
      while rpos[f1] > rpos[f2]
        invariant Walking(r, t, f1, f2, i, j) && f2 == start.1
        invariant f1 == start.0 || r[f1] < r[start.0]
        decreases r[f1]
      {
        WalkUp(r, t, f1, f2, i, j);
        f1 := idoms[f1];
      }
      ghost var middle := f1;
      while rpos[f2] > rpos[f1]
        invariant Walking(r, t, f1, f2, i, j) && f1 == middle
        invariant f2 == start.1 || r[f2] < r[start.1]
        decreases r[f2]
      {
        WalkSwap(r, t, f1, f2, i, j);
        WalkUp(r, t, f2, f1, j, i);
        f2 := idoms[f2];
        WalkSwap(r, t, f1, f2, i, j);
      }
    }
  }
}
