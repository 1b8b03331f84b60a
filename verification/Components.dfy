/** SSA names joined by phi functions, and their connected components (ssa.c:1099-1123). Handling one more phi function
    merges the classes of its members, and the result is again a partition into components. */
module Components {

  /** An SSA name, as a number. */
  type Name = int

  /** A phi function, as the names of its destination and of its arguments. */
  datatype Phi = Phi(dst: Name, args: seq<Name>) {
    ghost predicate Has(k: Name) {
      k == dst || k in args
    }
  }

  /** One of the first `n` phi functions has both names. */
  ghost predicate Linked(phis: seq<Phi>, n: nat, a: Name, b: Name) {
    exists i :: 0 <= i < n && i < |phis| && phis[i].Has(a) && phis[i].Has(b)
  }

  ghost predicate Chain(phis: seq<Phi>, n: nat, c: seq<Name>) {
    0 < |c| && forall i | 0 < i < |c| :: Linked(phis, n, c[i - 1], c[i])
  }

  /** A chain of the first `n` phi functions leads from `a` to `b`. */
  ghost predicate Connected(phis: seq<Phi>, n: nat, a: Name, b: Name) {
    exists c :: Chain(phis, n, c) && c[0] == a && c[|c| - 1] == b
  }

  lemma ConnectedRefl(phis: seq<Phi>, n: nat, a: Name)
    ensures Connected(phis, n, a, a)
  {
    assert Chain(phis, n, [a]);
  }

  lemma ConnectedTrans(phis: seq<Phi>, n: nat, a: Name, b: Name, d: Name)
    requires Connected(phis, n, a, b) && Connected(phis, n, b, d)
    ensures Connected(phis, n, a, d)
  {
    var p :| Chain(phis, n, p) && p[0] == a && p[|p| - 1] == b;
    var q :| Chain(phis, n, q) && q[0] == b && q[|q| - 1] == d;
    var r := p + q[1..];
    forall i | 0 < i < |r| ensures Linked(phis, n, r[i - 1], r[i]) {
      if i < |p| {
        assert r[i - 1] == p[i - 1] && r[i] == p[i];
      } else {
        assert r[i] == q[i - |p| + 1] && r[i - 1] == q[i - |p|];
      }
    }
    assert Chain(phis, n, r) && r[0] == a && r[|r| - 1] == d;
  }

  lemma LinkedConnects(phis: seq<Phi>, n: nat, a: Name, b: Name)
    requires Linked(phis, n, a, b)
    ensures Connected(phis, n, a, b)
  {
    assert Chain(phis, n, [a, b]) && [a, b][0] == a && [a, b][1] == b;
  }

  lemma ConnectedGrows(phis: seq<Phi>, n: nat, m: nat, a: Name, b: Name)
    requires n <= m && Connected(phis, n, a, b)
    ensures Connected(phis, m, a, b)
  {
    var c :| Chain(phis, n, c) && c[0] == a && c[|c| - 1] == b;
    forall i | 0 < i < |c| ensures Linked(phis, m, c[i - 1], c[i]) {
      assert Linked(phis, n, c[i - 1], c[i]);
    }
    assert Chain(phis, m, c);
  }

  /** A relation closed under links is closed under connection. */
  lemma {:induction false} ChainClosed(phis: seq<Phi>, n: nat, c: seq<Name>, s: set<Name>, k: nat)
    requires Chain(phis, n, c) && c[0] in s && k < |c|
    requires forall a, b | a in s && Linked(phis, n, a, b) :: b in s
    ensures c[k] in s
  {
    if k > 0 {
      ChainClosed(phis, n, c, s, k - 1);
      assert Linked(phis, n, c[k - 1], c[k]);
    }
  }

  lemma ConnectedIn(phis: seq<Phi>, n: nat, a: Name, b: Name, s: set<Name>)
    requires Connected(phis, n, a, b) && a in s
    requires forall x, y | x in s && Linked(phis, n, x, y) :: y in s
    ensures b in s
  {
    var c :| Chain(phis, n, c) && c[0] == a && c[|c| - 1] == b;
    ChainClosed(phis, n, c, s, |c| - 1);
  }

  /** A partition of the names: every name is in its own class and shares it with the members of the class. */
  ghost predicate Partition(cls: map<Name, set<Name>>) {
    && (forall k | k in cls :: k in cls[k])
    && (forall k, x | k in cls && x in cls[k] :: x in cls && cls[x] == cls[k])
  }

  ghost predicate KeysOf(phi: Phi, cls: map<Name, set<Name>>) {
    phi.dst in cls && forall a | a in phi.args :: a in cls
  }

  /** The classes of the members of `phi`, merged. */
  ghost function Merged(cls: map<Name, set<Name>>, phi: Phi): set<Name>
    requires KeysOf(phi, cls)
  {
    set x, k | k in cls && phi.Has(k) && x in cls[k] :: x
  }

  /** `next` is `cls` with the classes of the members of `phi` merged. */
  ghost predicate MergedBy(cls: map<Name, set<Name>>, next: map<Name, set<Name>>, phi: Phi)
    requires KeysOf(phi, cls)
  {
    && next.Keys == cls.Keys
    && forall k | k in cls :: next[k] == if k in Merged(cls, phi) then Merged(cls, phi) else cls[k]
  }

  ghost predicate AreComponents(cls: map<Name, set<Name>>, phis: seq<Phi>, n: nat) {
    Partition(cls) && forall k, x | k in cls :: x in cls[k] <==> Connected(phis, n, k, x)
  }

  /** The merged set is a union of classes. */
  lemma MergedIsUnion(cls: map<Name, set<Name>>, phi: Phi, k: Name, x: Name)
    requires Partition(cls) && KeysOf(phi, cls) && k in cls && x in cls[k]
    ensures k in Merged(cls, phi) <==> x in Merged(cls, phi)
  {
    if k in Merged(cls, phi) {
      var h :| h in cls && phi.Has(h) && k in cls[h];
      assert cls[k] == cls[h];
    }
    if x in Merged(cls, phi) {
      var h :| h in cls && phi.Has(h) && x in cls[h];
      assert cls[x] == cls[h] && cls[x] == cls[k] && k in cls[k];
    }
  }

  lemma MergedAreKeys(cls: map<Name, set<Name>>, phi: Phi, x: Name)
    requires Partition(cls) && KeysOf(phi, cls) && x in Merged(cls, phi)
    ensures x in cls
  {
  }

  lemma MergeKeepsPartition(cls: map<Name, set<Name>>, next: map<Name, set<Name>>, phi: Phi)
    requires Partition(cls) && KeysOf(phi, cls) && MergedBy(cls, next, phi)
    ensures Partition(next)
  {
    hide Merged;
    forall k, x | k in next && x in next[k] ensures x in next && next[x] == next[k] {
      if k in Merged(cls, phi) { MergedAreKeys(cls, phi, x); } else { MergedIsUnion(cls, phi, k, x); }
    }
  }

  /** Merging the classes of one more phi function gives the components of one more phi function. */
  lemma MergeIsComponent(cls: map<Name, set<Name>>, next: map<Name, set<Name>>, phis: seq<Phi>, n: nat)
    requires n < |phis| && KeysOf(phis[n], cls) && AreComponents(cls, phis, n) && MergedBy(cls, next, phis[n])
    ensures AreComponents(next, phis, n + 1)
  {
    hide Linked, Connected;
    MergeKeepsPartition(cls, next, phis[n]);
    forall k, x | k in next ensures x in next[k] <==> Connected(phis, n + 1, k, x) {
      if x in next[k] { MergeConnects(cls, next, phis, n, k, x); }
      if Connected(phis, n + 1, k, x) {
        forall a, b | a in next[k] && Linked(phis, n + 1, a, b) ensures b in next[k] {
          MergeClosed(cls, next, phis, n, a, b);
        }
        ConnectedIn(phis, n + 1, k, x, next[k]);
      }
    }
  }

  lemma MergeConnects(cls: map<Name, set<Name>>, next: map<Name, set<Name>>, phis: seq<Phi>, n: nat, k: Name, x: Name)
    requires n < |phis| && KeysOf(phis[n], cls) && AreComponents(cls, phis, n) && MergedBy(cls, next, phis[n])
    requires k in next && x in next[k]
    ensures Connected(phis, n + 1, k, x)
  {
    hide Connected;
    var m := Merged(cls, phis[n]);
    if k in m {
      var h :| h in cls && phis[n].Has(h) && k in cls[h];
      var j :| j in cls && phis[n].Has(j) && x in cls[j];
      assert cls[k] == cls[h] && h in cls[k];
      ConnectedGrows(phis, n, n + 1, k, h);
      assert Linked(phis, n + 1, h, j);
      LinkedConnects(phis, n + 1, h, j);
      ConnectedGrows(phis, n, n + 1, j, x);
      ConnectedTrans(phis, n + 1, k, h, j);
      ConnectedTrans(phis, n + 1, k, j, x);
    } else {
      ConnectedGrows(phis, n, n + 1, k, x);
    }
  }

  lemma MergedKeeps(cls: map<Name, set<Name>>, next: map<Name, set<Name>>, phi: Phi, a: Name, b: Name)
    requires Partition(cls) && KeysOf(phi, cls) && MergedBy(cls, next, phi) && a in cls && b in cls[a]
    ensures a in next && b in next[a]
  {
    hide Merged, Partition;
    MergedIsUnion(cls, phi, a, b);
  }

  lemma MergedJoins(cls: map<Name, set<Name>>, next: map<Name, set<Name>>, phi: Phi, a: Name, b: Name)
    requires Partition(cls) && KeysOf(phi, cls) && MergedBy(cls, next, phi) && phi.Has(a) && phi.Has(b)
    ensures a in next && b in next[a]
  {
    hide Merged, Partition;
    MemberMerged(cls, phi, a);
    MemberMerged(cls, phi, b);
  }

  lemma MergeClosed(cls: map<Name, set<Name>>, next: map<Name, set<Name>>, phis: seq<Phi>, n: nat, a: Name, b: Name)
    requires n < |phis| && KeysOf(phis[n], cls) && AreComponents(cls, phis, n) && MergedBy(cls, next, phis[n])
    requires Partition(next) && a in next && Linked(phis, n + 1, a, b)
    ensures b in next[a]
  {
    hide Connected, MergedBy, Partition;
    var i :| 0 <= i < n + 1 && i < |phis| && phis[i].Has(a) && phis[i].Has(b);
    if i < n {
      assert Linked(phis, n, a, b);
      LinkedConnects(phis, n, a, b);
      SameKeysMerged(cls, next, phis[n], a);
      MergedKeeps(cls, next, phis[n], a, b);
    } else {
      MergedJoins(cls, next, phis[n], a, b);
    }
  }

  lemma SameKeysMerged(cls: map<Name, set<Name>>, next: map<Name, set<Name>>, phi: Phi, a: Name)
    requires KeysOf(phi, cls) && MergedBy(cls, next, phi) && a in next
    ensures a in cls
  {
  }

  lemma MemberMerged(cls: map<Name, set<Name>>, phi: Phi, a: Name)
    requires Partition(cls) && KeysOf(phi, cls) && phi.Has(a)
    ensures a in cls && a in Merged(cls, phi)
  {
    assert a in cls && a in cls[a];
  }
}
