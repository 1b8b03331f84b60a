/** The interference graph as a triangular matrix (ig_lookup and add_ig_edge, wcc.h:1153-1159). An edge is kept once,
    in the row of its smaller end; different edges have different cells, and no cell lies below the diagonal. */
module EdgeMatrix {
  import opened Basics

  type Edge = (nat, nat)

  /** Where the edge between `a` and `b` is kept: row of the smaller, column of the larger. */
  function Cell(n: nat, a: nat, b: nat): nat {
    if a > b then b * n + a else a * n + b
  }

  ghost predicate Vreg(n: nat, a: nat) {
    1 <= a <= n
  }

  lemma RowInjective(n: nat, a: nat, b: nat, c: nat, d: nat)
    requires Vreg(n, a) && Vreg(n, b) && Vreg(n, c) && Vreg(n, d) && a * n + b == c * n + d
    ensures a == c && b == d
  {
    if a < c {
      assert (a + 1) * n == a * n + n;
      MulMonotone(a + 1, c, n);
    } else if c < a {
      assert (c + 1) * n == c * n + n;
      MulMonotone(c + 1, a, n);
    }
  }

  lemma CellInRange(n: nat, a: nat, b: nat)
    requires Vreg(n, a) && Vreg(n, b)
    ensures Cell(n, a, b) < (n + 1) * (n + 1) && a * n + b < (n + 1) * (n + 1)
  {
    MulMonotone(a, n, n);
    MulMonotone(b, n, n);
    assert (n + 1) * (n + 1) == n * n + n + n + 1;
  }

  ghost predicate SameEdge(a: nat, b: nat, c: nat, d: nat) {
    (a == c && b == d) || (a == d && b == c)
  }

  lemma CellInjective(n: nat, a: nat, b: nat, c: nat, d: nat)
    requires Vreg(n, a) && Vreg(n, b) && Vreg(n, c) && Vreg(n, d)
    ensures Cell(n, a, b) == Cell(n, c, d) <==> SameEdge(a, b, c, d)
  {
    if Cell(n, a, b) == Cell(n, c, d) {
      RowInjective(n, if a > b then b else a, if a > b then a else b, if c > d then d else c, if c > d then c else d);
    }
  }

  ghost predicate Has(edges: set<Edge>, a: nat, b: nat) {
    (a, b) in edges || (b, a) in edges
  }

  /** The matrix holds exactly these edges, and nothing below the diagonal. */
  ghost predicate Draws(ig: seq<bool>, n: nat, edges: set<Edge>) {
    && |ig| == (n + 1) * (n + 1)
    && (forall a: nat, b: nat | Vreg(n, a) && Vreg(n, b) :: CellIs(ig, n, a, b, Has(edges, a, b)))
    && (forall a: nat, b: nat | Vreg(n, a) && Vreg(n, b) && b < a :: BelowIsEmpty(ig, n, a, b))
  }

  ghost predicate CellIs(ig: seq<bool>, n: nat, a: nat, b: nat, want: bool) {
    Cell(n, a, b) < |ig| && ig[Cell(n, a, b)] == want
  }

  ghost predicate BelowIsEmpty(ig: seq<bool>, n: nat, a: nat, b: nat) {
    a * n + b < |ig| && !ig[a * n + b]
  }

  ghost predicate Within(n: nat, edges: set<Edge>) {
    forall e | e in edges :: Vreg(n, e.0) && Vreg(n, e.1)
  }

  lemma BelowIsNoCell(n: nat, a: nat, b: nat, c: nat, d: nat)
    requires Vreg(n, a) && Vreg(n, b) && Vreg(n, c) && Vreg(n, d) && d < c
    ensures c * n + d != Cell(n, a, b)
  {
    if a > b {
      if c * n + d == b * n + a { RowInjective(n, c, d, b, a); }
    } else {
      if c * n + d == a * n + b { RowInjective(n, c, d, a, b); }
    }
  }

  lemma CellAfter(ig: seq<bool>, n: nat, a: nat, b: nat, c: nat, d: nat, was: bool)
    requires Vreg(n, a) && Vreg(n, b) && Vreg(n, c) && Vreg(n, d) && Cell(n, a, b) < |ig| && CellIs(ig, n, c, d, was)
    ensures CellIs(ig[Cell(n, a, b) := true], n, c, d, was || SameEdge(a, b, c, d))
  {
    CellInjective(n, a, b, c, d);
  }

  lemma BelowAfter(ig: seq<bool>, n: nat, a: nat, b: nat, c: nat, d: nat)
    requires Vreg(n, a) && Vreg(n, b) && Vreg(n, c) && Vreg(n, d) && d < c
      && Cell(n, a, b) < |ig| && BelowIsEmpty(ig, n, c, d)
    ensures BelowIsEmpty(ig[Cell(n, a, b) := true], n, c, d)
  {
    BelowIsNoCell(n, a, b, c, d);
  }

  lemma DrawOne(ig: seq<bool>, n: nat, edges: set<Edge>, a: nat, b: nat)
    requires Draws(ig, n, edges) && Vreg(n, a) && Vreg(n, b)
    ensures Cell(n, a, b) < |ig| && Draws(ig[Cell(n, a, b) := true], n, edges + {(a, b)})
  {
    hide Cell, CellIs, BelowIsEmpty;
    CellInRange(n, a, b);
    var now := ig[Cell(n, a, b) := true];
    forall c: nat, d: nat | Vreg(n, c) && Vreg(n, d) ensures CellIs(now, n, c, d, Has(edges + {(a, b)}, c, d)) {
      CellAfter(ig, n, a, b, c, d, Has(edges, c, d));
      assert Has(edges + {(a, b)}, c, d) == (Has(edges, c, d) || SameEdge(a, b, c, d));
    }
    forall c: nat, d: nat | Vreg(n, c) && Vreg(n, d) && d < c ensures BelowIsEmpty(now, n, c, d) {
      BelowAfter(ig, n, a, b, c, d);
    }
  }

  method NewMatrix(n: nat) returns (ig: array<bool>)
    ensures fresh(ig) && Draws(ig[..], n, {})
  {
    ig := new bool[(n + 1) * (n + 1)](_ => false);
    forall a: nat, b: nat | Vreg(n, a) && Vreg(n, b)
      ensures CellIs(ig[..], n, a, b, Has({}, a, b))
    {
      CellInRange(n, a, b);
    }
    forall a: nat, b: nat | Vreg(n, a) && Vreg(n, b) && b < a
      ensures BelowIsEmpty(ig[..], n, a, b)
    {
      CellInRange(n, a, b);
    }
  }

  method AddEdge(ig: array<bool>, n: nat, a: nat, b: nat, ghost edges: set<Edge>)
    requires Draws(ig[..], n, edges) && Vreg(n, a) && Vreg(n, b)
    modifies ig
    ensures Draws(ig[..], n, edges + {(a, b)})
  {
    hide Draws;
    DrawOne(ig[..], n, edges, a, b);
    ghost var was := ig[..];
    ig[Cell(n, a, b)] := true;
    assert ig[..] == was[Cell(n, a, b) := true];
  }

  method Lookup(ig: array<bool>, n: nat, a: nat, b: nat, ghost edges: set<Edge>) returns (found: bool)
    requires Draws(ig[..], n, edges) && Vreg(n, a) && Vreg(n, b)
    ensures found == Has(edges, a, b)
  {
    assert CellIs(ig[..], n, a, b, Has(edges, a, b));
    found := ig[Cell(n, a, b)];
  }

  /** Edges from `a` to every member of a set. */
  function Star(a: nat, s: set<nat>): set<Edge> {
    set v | v in s :: (a, v)
  }

  method AddStar(ig: array<bool>, n: nat, a: nat, s: set<nat>, ghost edges: set<Edge>)
    requires Draws(ig[..], n, edges) && Vreg(n, a) && forall v | v in s :: Vreg(n, v)
    modifies ig
    ensures Draws(ig[..], n, edges + Star(a, s))
  {
    hide Draws;
    var todo := s;
    assert edges + Star(a, s - todo) == edges;
    while todo != {}
      invariant todo <= s && Draws(ig[..], n, edges + Star(a, s - todo))
    {
      var v := AnyOf(todo);
      ghost var was := edges + Star(a, s - todo);
      AddEdge(ig, n, a, v, was);
      todo := todo - {v};
      assert was + {(a, v)} == edges + Star(a, s - todo);
    }
    assert s - todo == s;
  }
}
