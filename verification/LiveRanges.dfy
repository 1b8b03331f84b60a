/** Live ranges out of SSA names (make_live_ranges, ssa.c:1062-1207). */
module LiveRanges {
  import opened Components
  import opened Basics

  /** A set of names, shared by all its members in the live range map. */
  class NameSet {
    var elements: set<Name>

    constructor (key: Name)
      ensures elements == {key}
    {
      elements := {key};
    }
  }

  ghost function Classes(m: map<Name, NameSet>): map<Name, set<Name>>
    reads m.Values
  {
    map k | k in m :: m[k].elements
  }

  /** Every name is in its own set object, and the members of a set object share it. */
  ghost predicate Shared(m: map<Name, NameSet>)
    reads m.Values
  {
    && (forall k | k in m :: k in m[k].elements)
    && (forall k, x | k in m && x in m[k].elements :: x in m && m[x] == m[k])
  }

  /** The members of the first `n` arguments' classes, and of `start`. */
  ghost function Gathered(cls: map<Name, set<Name>>, start: set<Name>, args: seq<Name>, n: nat): set<Name>
    requires n <= |args| && forall a | a in args :: a in cls
  {
    if n == 0 then start else Gathered(cls, start, args, n - 1) + cls[args[n - 1]]
  }

  lemma {:induction false} GatheredMembers(cls: map<Name, set<Name>>, start: set<Name>, args: seq<Name>, n: nat,
                                           x: Name)
    requires n <= |args| && forall a | a in args :: a in cls
    ensures x in Gathered(cls, start, args, n) <==> x in start || exists i :: 0 <= i < n && x in cls[args[i]]
  {
    if n > 0 { GatheredMembers(cls, start, args, n - 1, x); }
  }

  lemma InMerged(cls: map<Name, set<Name>>, phi: Phi, k: Name, x: Name)
    requires KeysOf(phi, cls) && k in cls && phi.Has(k) && x in cls[k]
    ensures x in Merged(cls, phi)
  {
  }

  lemma AllGathered(cls: map<Name, set<Name>>, phi: Phi)
    requires KeysOf(phi, cls)
    ensures Gathered(cls, cls[phi.dst], phi.args, |phi.args|) == Merged(cls, phi)
  {
    assert phi.Has(phi.dst);
    forall x ensures x in Gathered(cls, cls[phi.dst], phi.args, |phi.args|) <==> x in Merged(cls, phi) {
      GatheredMembers(cls, cls[phi.dst], phi.args, |phi.args|, x);
      if x in cls[phi.dst] { InMerged(cls, phi, phi.dst, x); }
      if i :| 0 <= i < |phi.args| && x in cls[phi.args[i]] { InMerged(cls, phi, phi.args[i], x); }
      if x in Merged(cls, phi) {
        var k :| k in cls && phi.Has(k) && x in cls[k];
        if k != phi.dst {
          var i :| 0 <= i < |phi.args| && phi.args[i] == k;
          assert x in cls[phi.args[i]];
        }
      }
    }
  }

  /** While a phi function is handled: `all` has been gathered in the object `d`; its members point to `d`, except that
      arguments already handled may still point to their former object. */
  ghost predicate Repointing(m0: map<Name, NameSet>, m: map<Name, NameSet>, d: NameSet, all: set<Name>,
      handled: set<Name>) {
    && m.Keys == m0.Keys
    && (forall k | k in m0 && k !in all :: m[k] == m0[k])
    && (forall k | k in m0 && k in all :: m[k] == d || (k in handled && m[k] == m0[k]))
  }

  ghost predicate UnionOfClasses(cls: map<Name, set<Name>>, s: set<Name>) {
    forall k | k in s :: k in cls && cls[k] <= s
  }

  /** Add every element of `src` to `d`, if they are different objects, and repoint all of them but `a` to `d`. */
  method Repoint(m: map<Name, NameSet>, src: NameSet, d: NameSet, a: Name) returns (r: map<Name, NameSet>)
    requires forall x | x in src.elements :: x in m
    modifies d
    ensures d.elements == old(d.elements) + old(src.elements)
    ensures r.Keys == m.Keys
    ensures forall k | k in m :: r[k] == if k in old(src.elements) && k != a then d else m[k]
  {
    var todo := src.elements;
    r := m;
    while todo != {}
      invariant todo <= old(src.elements)
      invariant old(d.elements) <= d.elements <= old(d.elements) + old(src.elements) <= d.elements + todo
      invariant r.Keys == m.Keys
      invariant forall k | k in m :: r[k] == if k in old(src.elements) && k !in todo && k != a then d else m[k]
    {
      var x := AnyOf(todo);
      todo := todo - {x};
      if src != d { d.elements := d.elements + {x}; }
      if x != a { r := r[x := d]; }
    }
  }

  /** Take in the class of the next argument. */
  method Absorb(m0: map<Name, NameSet>, m: map<Name, NameSet>, d: NameSet, a: Name, ghost cls: map<Name, set<Name>>,
                ghost handled: set<Name>)
    returns (r: map<Name, NameSet>)
    requires Partition(cls) && cls.Keys == m0.Keys && a in cls && d in m0.Values
    requires Repointing(m0, m, d, d.elements, handled)
    requires forall k | k in m0 :: if m0[k] == d then k in d.elements else m0[k].elements == cls[k]
    requires UnionOfClasses(cls, d.elements)
    modifies d
    ensures d.elements == old(d.elements) + cls[a]
    ensures UnionOfClasses(cls, d.elements) && Repointing(m0, r, d, d.elements, handled + {a})
  {
    var src := m[a];
    assert src.elements == cls[a] || (src == d && cls[a] <= src.elements);
    r := Repoint(m, src, d, a);
  }

  lemma SameKeys<K, V>(m: map<K, V>, k: K, v: V)
    requires k in m
    ensures m[k := v].Keys == m.Keys
  {
  }

  /** Point the arguments, which may still point to their former objects, to `d`. */
  method RepointArgs(ghost m0: map<Name, NameSet>, m: map<Name, NameSet>, d: NameSet, args: seq<Name>,
                     ghost all: set<Name>, ghost handled: set<Name>)
    returns (r: map<Name, NameSet>)
    requires Repointing(m0, m, d, all, handled)
    requires (forall a | a in args :: a in m0 && a in all) && forall a | a in handled :: a in args
    ensures r.Keys == m0.Keys && forall k | k in m0 :: r[k] == if k in all then d else m0[k]
  {
    r := m;
    for j := 0 to |args|
      invariant r.Keys == m0.Keys
      invariant forall k | k in m0 && k !in all :: r[k] == m0[k]
      invariant forall k | k in m0 && k in all :: r[k] == d || (k in handled && k !in args[..j])
    {
      assert args[j] in args && args[..j + 1] == args[..j] + [args[j]];
      SameKeys(r, args[j], d);
      r := r[args[j] := d];
    }
    assert args[..|args|] == args;
  }

  /** Handle one phi function: gather its members' classes in the object of its destination and point everyone there. */
  method MergePhi(m0: map<Name, NameSet>, phi: Phi) returns (m: map<Name, NameSet>)
    requires Shared(m0) && KeysOf(phi, Classes(m0))
    modifies m0[phi.dst]
    ensures forall k | k in m :: exists j :: j in m0 && m[k] == m0[j]
    ensures Shared(m) && MergedBy(old(Classes(m0)), Classes(m), phi)
  {
    hide Gathered, Merged;
    ghost var cls := Classes(m0);
    var d := m0[phi.dst];
    m := m0;
    ghost var handled := {};
    GatheredStart(cls, cls[phi.dst], phi.args);
    SharedStart(m0, cls, phi.dst);
    for j := 0 to |phi.args|
      invariant d.elements == Gathered(cls, cls[phi.dst], phi.args, j) && cls[phi.dst] <= d.elements
      invariant UnionOfClasses(cls, d.elements) && Repointing(m0, m, d, d.elements, handled)
      invariant forall k | k in m0 && m0[k] != d :: m0[k].elements == cls[k]
      invariant forall a | a in handled :: a in phi.args
    {
      var a := phi.args[j];
      assert a in phi.args;
      GatheredNext(cls, cls[phi.dst], phi.args, j);
      m := Absorb(m0, m, d, a, cls, handled);
      handled := handled + {a};
    }
    AllGathered(cls, phi);
    forall a | a in phi.args ensures a in d.elements { InMerged(cls, phi, a, a); }
    m := RepointArgs(m0, m, d, phi.args, d.elements, handled);
    RepointedClasses(m0, m, d, cls, phi);
    RepointedShared(m0, m, d, cls);
  }

  lemma SharedStart(m0: map<Name, NameSet>, cls: map<Name, set<Name>>, dst: Name)
    requires Shared(m0) && cls == Classes(m0) && dst in m0
    ensures Partition(cls) && UnionOfClasses(cls, cls[dst]) && Repointing(m0, m0, m0[dst], cls[dst], {})
    ensures forall k | k in m0 && m0[k] == m0[dst] :: k in cls[dst]
    ensures forall k, x | k in cls && x in cls[k] :: x in m0 && m0[x] == m0[k]
  {
    assert cls[dst] == m0[dst].elements;
    forall x | x in cls[dst] ensures x in cls.Keys && cls[x] == cls[dst] {}
  }

  lemma GatheredStart(cls: map<Name, set<Name>>, start: set<Name>, args: seq<Name>)
    requires forall a | a in args :: a in cls
    ensures Gathered(cls, start, args, 0) == start
  {
  }

  lemma GatheredNext(cls: map<Name, set<Name>>, start: set<Name>, args: seq<Name>, j: nat)
    requires j < |args| && forall a | a in args :: a in cls
    ensures Gathered(cls, start, args, j + 1) == Gathered(cls, start, args, j) + cls[args[j]]
  {
  }

  /** Everyone in the merged set `d.elements` points to its object `d`, and everyone else where they did. */
  ghost predicate RepointedTo(m0: map<Name, NameSet>, m: map<Name, NameSet>, d: NameSet, cls: map<Name, set<Name>>)
    reads m0.Values, m.Values, d
  {
    && cls.Keys == m0.Keys == m.Keys
    && (forall k | k in m0 :: m[k] == if k in d.elements then d else m0[k])
    && (forall k | k in m0 && k !in d.elements :: m0[k] != d && m0[k].elements == cls[k])
  }

  lemma RepointedClasses(m0: map<Name, NameSet>, m: map<Name, NameSet>, d: NameSet, cls: map<Name, set<Name>>, phi: Phi)
    requires KeysOf(phi, cls) && d.elements == Merged(cls, phi) && RepointedTo(m0, m, d, cls)
    ensures MergedBy(cls, Classes(m), phi)
  {
    hide Merged;
  }

  lemma RepointedShared(m0: map<Name, NameSet>, m: map<Name, NameSet>, d: NameSet, cls: map<Name, set<Name>>)
    requires Partition(cls) && RepointedTo(m0, m, d, cls) && UnionOfClasses(cls, d.elements)
    requires forall k, x | k in cls && x in cls[k] :: x in m0 && m0[x] == m0[k]
    ensures Shared(m)
  {
    forall k, x | k in m && x in m[k].elements ensures x in m && m[x] == m[k] {
      if k in d.elements {
        assert x in cls && x in d.elements;
      } else {
        assert x in cls[k] && cls[x] == cls[k] && k in cls[x];
      }
    }
  }

  lemma SingletonsAreComponents(cls: map<Name, set<Name>>, phis: seq<Phi>)
    requires forall k | k in cls :: cls[k] == {k}
    ensures AreComponents(cls, phis, 0)
  {
    hide Connected, Linked;
    forall k, x | k in cls ensures x in cls[k] <==> Connected(phis, 0, k, x) {
      ConnectedRefl(phis, 0, k);
      if Connected(phis, 0, k, x) {
        NoLinks(phis);
        ConnectedIn(phis, 0, k, x, {k});
      }
    }
  }

  lemma NoLinks(phis: seq<Phi>)
    ensures forall a, b :: !Linked(phis, 0, a, b)
  {
  }

  /** A new set object for every name. */
  method InitialSets(keys: set<Name>) returns (m: map<Name, NameSet>)
    ensures m.Keys == keys && Shared(m) && forall k | k in m :: fresh(m[k]) && m[k].elements == {k}
  {
    m := map[];
    var todo := keys;
    while todo != {}
      invariant m.Keys == keys - todo && todo <= keys
      invariant forall k | k in m :: fresh(m[k]) && m[k].elements == {k}
    {
      var k := AnyOf(todo);
      var s := new NameSet(k);
      m := m[k := s];
      todo := todo - {k};
    }
  }

  method NumberSet(liveRange: map<Name, nat>, names: set<Name>, n: nat) returns (r: map<Name, nat>)
    ensures forall k :: k in r <==> k in liveRange || k in names
    ensures forall k | k in r :: r[k] == if k in names then n else liveRange[k]
  {
    r := liveRange;
    var todo := names;
    while todo != {}
      invariant todo <= names && forall k :: k in r <==> k in liveRange || k in names - todo
      invariant forall k | k in r :: r[k] == if k in names - todo then n else liveRange[k]
    {
      var k := AnyOf(todo);
      r := r[k := n];
      todo := todo - {k};
    }
  }

  ghost predicate IsNumber(liveRange: map<Name, nat>, n: nat) {
    exists k :: k in liveRange && liveRange[k] == n
  }

  /** All numbers from `offset + 1` up to the largest are used. */
  ghost predicate NoGaps(liveRange: map<Name, nat>, offset: nat) {
    forall k, n: nat | k in liveRange && offset < n <= liveRange[k] :: IsNumber(liveRange, n)
  }

  /** Names numbered so far: those whose set object is not in `todo`, with distinct numbers for distinct objects. */
  ghost predicate NumberedSoFar(m: map<Name, NameSet>, todo: set<NameSet>, offset: nat, next: nat,
                                liveRange: map<Name, nat>) {
    && (forall k :: k in liveRange <==> k in m && m[k] !in todo)
    && (forall k | k in liveRange :: offset < liveRange[k] <= next)
    && (forall a, b | a in liveRange && b in liveRange :: liveRange[a] == liveRange[b] <==> m[a] == m[b])
    && (forall n: nat | offset < n <= next :: IsNumber(liveRange, n))
  }

  lemma NumberNext(m: map<Name, NameSet>, todo: set<NameSet>, s: NameSet, offset: nat, next: nat, was: map<Name, nat>,
                   now: map<Name, nat>, r: Name)
    requires NumberedSoFar(m, todo, offset, next, was) && offset <= next && s in todo && r in m && m[r] == s
    requires forall k :: k in now <==> k in was || (k in m && m[k] == s)
    requires forall k | k in now :: now[k] == if k in m && m[k] == s then next + 1 else was[k]
    ensures NumberedSoFar(m, todo - {s}, offset, next + 1, now)
  {
    forall n: nat | offset < n <= next + 1 ensures IsNumber(now, n) {
      if n == next + 1 {
        assert r in now && now[r] == n;
      } else {
        assert IsNumber(was, n);
        var k :| k in was && was[k] == n;
        assert k in now && now[k] == n;
      }
    }
  }

  /** Number the distinct set objects from `offset + 1` on, in some order, and give each name the number of its set. */
  method NumberSets(m: map<Name, NameSet>, offset: nat) returns (liveRange: map<Name, nat>)
    requires Shared(m)
    ensures forall k :: k in liveRange <==> k in m
    ensures forall a, b | a in m && b in m :: liveRange[a] == liveRange[b] <==> m[a] == m[b]
    ensures (forall a | a in m :: offset < liveRange[a]) && NoGaps(liveRange, offset)
  {
    liveRange := map[];
    var todo := set k | k in m :: m[k];
    var next := offset;
    while todo != {}
      invariant offset <= next && NumberedSoFar(m, todo, offset, next, liveRange)
      invariant forall o | o in todo :: exists k :: k in m && m[k] == o
    {
      hide NumberedSoFar;
      var s := AnyOf(todo);
      ghost var r :| r in m && m[r] == s;
      MembersPointHere(m, r);
      ghost var was := liveRange;
      liveRange := NumberSet(liveRange, s.elements, next + 1);
      NumberNext(m, todo, s, offset, next, was, liveRange, r);
      next := next + 1;
      todo := todo - {s};
    }
  }

  lemma MembersPointHere(m: map<Name, NameSet>, r: Name)
    requires Shared(m) && r in m
    ensures forall k :: k in m[r].elements <==> k in m && m[k] == m[r]
  {
  }

  lemma StartComponents(m: map<Name, NameSet>, phis: seq<Phi>)
    requires forall k | k in m :: m[k].elements == {k}
    ensures AreComponents(Classes(m), phis, 0)
  {
    hide AreComponents;
    SingletonsAreComponents(Classes(m), phis);
  }

  lemma MembersAreKeys(keys: set<Name>, phis: seq<Phi>, cls: map<Name, set<Name>>, n: nat)
    requires forall i | 0 <= i < |phis| :: phis[i].dst in keys && forall a | a in phis[i].args :: a in keys
    requires n < |phis| && cls.Keys == keys
    ensures KeysOf(phis[n], cls)
  {
  }

  lemma SameSetIsConnected(m: map<Name, NameSet>, phis: seq<Phi>, a: Name, b: Name)
    requires Shared(m) && AreComponents(Classes(m), phis, |phis|) && a in m && b in m
    ensures m[a] == m[b] <==> Connected(phis, |phis|, a, b)
  {
    hide Connected;
    assert b in Classes(m)[a] <==> m[a] == m[b];
  }

  lemma MergedKeys(cls: map<Name, set<Name>>, next: map<Name, set<Name>>, phi: Phi)
    requires KeysOf(phi, cls) && MergedBy(cls, next, phi)
    ensures next.Keys == cls.Keys
  {
  }

  /** One more phi function. */
  method NextComponents(m: map<Name, NameSet>, ghost keys: set<Name>, phis: seq<Phi>, n: nat)
    returns (r: map<Name, NameSet>)
    requires forall i | 0 <= i < |phis| :: phis[i].dst in keys && forall a | a in phis[i].args :: a in keys
    requires n < |phis| && m.Keys == keys && Shared(m) && AreComponents(Classes(m), phis, n)
    modifies set k | k in m :: m[k]
    ensures r.Keys == keys && Shared(r) && AreComponents(Classes(r), phis, n + 1)
    ensures forall k | k in r :: exists j :: j in m && r[k] == m[j]
  {
    hide Connected, MergedBy, AreComponents, Shared, KeysOf;
    ghost var cls := Classes(m);
    MembersAreKeys(keys, phis, cls, n);
    r := MergePhi(m, phis[n]);
    MergedKeys(cls, Classes(r), phis[n]);
    assert r.Keys == Classes(r).Keys == cls.Keys == keys;
    MergeIsComponent(cls, Classes(r), phis, n);
  }

  /** Sets for all names, merged for all phi functions. */
  method ComponentSets(keys: set<Name>, phis: seq<Phi>) returns (m: map<Name, NameSet>)
    requires forall i | 0 <= i < |phis| :: phis[i].dst in keys && forall a | a in phis[i].args :: a in keys
    ensures m.Keys == keys && Shared(m) && AreComponents(Classes(m), phis, |phis|)
  {
    hide Connected, MergedBy, AreComponents, Shared, KeysOf;
    m := InitialSets(keys);
    StartComponents(m, phis);
    for n := 0 to |phis|
      invariant m.Keys == keys && Shared(m) && (forall k | k in m :: fresh(m[k]))
      invariant AreComponents(Classes(m), phis, n)
    {
      m := NextComponents(m, keys, phis, n);
    }
  }

  /** Live ranges of the names `keys`: two names get the same number exactly if phi functions connect them. */
  method MakeLiveRanges(keys: set<Name>, phis: seq<Phi>, offset: nat) returns (liveRange: map<Name, nat>)
    requires forall i | 0 <= i < |phis| :: phis[i].dst in keys && forall a | a in phis[i].args :: a in keys
    ensures forall a :: a in liveRange <==> a in keys
    ensures (forall a | a in keys :: offset < liveRange[a]) && NoGaps(liveRange, offset)
    ensures forall a, b | a in keys && b in keys :: liveRange[a] == liveRange[b] <==> Connected(phis, |phis|, a, b)
  {
    hide NoGaps;
    hide Connected, AreComponents, Shared;
    var m := ComponentSets(keys, phis);
    liveRange := NumberSets(m, offset);
    forall a, b | a in keys && b in keys ensures m[a] == m[b] <==> Connected(phis, |phis|, a, b) {
      SameSetIsConnected(m, phis, a, b);
    }
  }
}
