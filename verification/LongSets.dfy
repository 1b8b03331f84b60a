/** Sets of numbers, as maps to 1 (longset.c:5-87). */
module LongSets {
  import opened Tables
  import opened LongMaps

  /** Every stored value is 1. */
  ghost predicate Ones(t: Table) {
    forall p: nat, k | t.At(p, k) && p < |t.values| :: t.values[p] == 1
  }

  /** A set being built: no key is stored twice and none has been deleted. */
  ghost predicate Building(t: Table, m: map<int, int>) {
    Represents(t, m) && NoTombstones(t)
  }

  ghost predicate Among(ks: seq<int>, n: nat, k: int)
    requires n <= |ks|
  {
    exists i :: 0 <= i < n && ks[i] == k
  }

  lemma AmongNext(ks: seq<int>, n: nat, k: int)
    requires n < |ks|
    ensures Among(ks, n + 1, k) <==> Among(ks, n, k) || ks[n] == k
  {
    if i :| 0 <= i < n && ks[i] == k { assert 0 <= i < n + 1; }
  }

  lemma AmongAll(ks: seq<int>)
    ensures forall k :: Among(ks, |ks|, k) <==> k in ks
  {
  }

  method Has(s: LongMap, k: int) returns (yes: bool)
    requires s.Valid() && Ones(s.View())
    ensures yes <==> s.View().Present(k)
  {
    var value := s.Get(k);
    yes := value != 0;
  }

  /** Put one key into a set being built. */
  method Add(to: LongMap, k: int, ghost m: map<int, int>) returns (ghost next: map<int, int>)
    requires to.Valid() && Building(to.View(), m)
    modifies to, to.keys, to.values, to.status
    ensures to.Valid() && (to.Arrays() == old(to.Arrays()) || fresh(to.Arrays()))
    ensures Building(to.View(), next) && next == m[k := 1]
  {
    hide Represents, Shadowed;
    NoTombstoneNoShadow(to.View(), k);
    to.Put(k, 1);
    next := m[k := 1];
  }

  /** Put keys into a set being built, one after the other. */
  method AddKeys(to: LongMap, ks: seq<int>, ghost m: map<int, int>) returns (ghost next: map<int, int>)
    requires to.Valid() && Building(to.View(), m)
    modifies to, to.keys, to.values, to.status
    ensures to.Valid() && (to.Arrays() == old(to.Arrays()) || fresh(to.Arrays() - old(to.Arrays())))
    ensures Building(to.View(), next) && forall k :: k in next <==> k in m || k in ks
  {
    hide Represents, NonEmpty, InUse, Table.Probed, Among, Building;
    next := m;
    NoneAmong(ks);
    for i := 0 to |ks|
      invariant to.Valid() && Building(to.View(), next) && fresh(to.Arrays() - old(to.Arrays()))
      invariant forall k :: k in next <==> k in m || Among(ks, i, k)
    {
      forall k { AmongNext(ks, i, k); }
      next := Add(to, ks[i], next);
    }
    AmongAll(ks);
  }

  /** A new set of two lists of keys. */
  method FromKeys(ks: seq<int>, js: seq<int>) returns (r: LongMap, ghost m: map<int, int>)
    ensures fresh(r) && r.Valid() && Building(r.View(), m) && forall k :: k in m <==> k in ks || k in js
  {
    hide Represents, NonEmpty, InUse, Table.Probed, Building;
    r := new LongMap((k: int) => k);
    EmptyIsBuilding(r.View());
    m := AddKeys(r, ks, map[]);
    m := AddKeys(r, js, m);
  }

  /** A new set with the elements of both. */
  method Union(a: LongMap, b: LongMap) returns (r: LongMap)
    requires a.Valid() && b.Valid()
    ensures fresh(r) && r.Valid() && r.View().Unique()
    ensures forall k :: r.View().Present(k) <==> a.View().Present(k) || b.View().Present(k)
  {
    hide Represents, UsedKeys, NonEmpty, InUse, Table.Probed, Table.Present, Table.Unique, Building;
    var ks := Keys(a);
    var js := Keys(b);
    ghost var ta, tb := a.View(), b.View();
    ghost var m;
    r, m := FromKeys(ks, js);
    assert a.View() == ta && b.View() == tb;
    BuildingMeans(r.View(), m);
  }

  lemma NoneAmong(ks: seq<int>)
    ensures forall k :: !Among(ks, 0, k)
  {
  }

  lemma EmptyIsBuilding(t: Table)
    requires Represents(t, map[]) && NoTombstones(t)
    ensures Building(t, map[])
  {
  }

  lemma BuildingMeans(t: Table, m: map<int, int>)
    requires Building(t, m)
    ensures t.Unique() && forall k :: k in m <==> t.Present(k)
  {
  }

  /** A new set of those keys that are in `b`. */
  method Filtered(ks: seq<int>, b: LongMap) returns (r: LongMap, ghost m: map<int, int>)
    requires b.Valid() && Ones(b.View())
    ensures fresh(r) && r.Valid() && Building(r.View(), m) && forall k :: k in m <==> k in ks && b.View().Present(k)
  {
    hide Represents, NonEmpty, InUse, Table.Probed, Table.Present, Among, Building;
    r := new LongMap((k: int) => k);
    m := map[];
    EmptyIsBuilding(r.View());
    ghost var tb := b.View();
    NoneAmong(ks);
    for i := 0 to |ks|
      invariant r.Valid() && fresh(r) && fresh(r.Arrays()) && Building(r.View(), m) && b.View() == tb && b.Valid()
      invariant forall k :: k in m <==> Among(ks, i, k) && tb.Present(k)
    {
      forall k { AmongNext(ks, i, k); }
      var both := Has(b, ks[i]);
      if both { m := Add(r, ks[i], m); }
    }
    AmongAll(ks);
  }

  /** A new set with the common elements. */
  method Intersection(a: LongMap, b: LongMap) returns (r: LongMap)
    requires a.Valid() && b.Valid() && Ones(b.View())
    ensures fresh(r) && r.Valid() && r.View().Unique()
    ensures forall k :: r.View().Present(k) <==> a.View().Present(k) && b.View().Present(k)
  {
    hide Represents, UsedKeys, NonEmpty, InUse, Table.Probed, Table.Present, Table.Unique, Building;
    ghost var ta, tb := a.View(), b.View();
    var ks := Keys(a);
    ghost var m;
    r, m := Filtered(ks, b);
    assert a.View() == ta && b.View() == tb;
    BuildingMeans(r.View(), m);
  }

  ghost predicate Inside<T(!new)>(a: seq<T>, b: seq<T>) {
    forall k | k in a :: k in b
  }

  /** Two lists of distinct keys of which one holds the other have the same keys exactly if they are equally long. */
  lemma {:induction false} SameLengthSameKeys<T(!new)>(a: seq<T>, b: seq<T>)
    requires DistinctKeys(a) && DistinctKeys(b) && Inside(a, b)
    ensures |a| <= |b|
    ensures |a| == |b| <==> Inside(b, a)
  {
    if a == [] {
      if b != [] { assert b[0] in b; }
    } else {
      assert a[0] in b;
      var j :| 0 <= j < |b| && b[j] == a[0];
      var rest := b[..j] + b[j + 1..];
      forall k ensures k in rest <==> k in b && k != a[0] { InRest(b, j, k); }
      SameLengthSameKeys(a[1..], rest);
      assert a == [a[0]] + a[1..];
      assert forall k :: k in a <==> k == a[0] || k in a[1..];
    }
  }

  lemma InRest<T(!new)>(b: seq<T>, j: nat, k: T)
    requires DistinctKeys(b) && j < |b|
    ensures k in b[..j] + b[j + 1..] <==> k in b && k != b[j]
  {
    if k in b && k != b[j] {
      var i :| 0 <= i < |b| && b[i] == k;
      assert if i < j then b[..j][i] == k else b[j + 1..][i - j - 1] == k;
    }
  }

  /** Whether two sets are equal: the first is in the second and they have as many slots in use. */
  method Eq(a: LongMap, b: LongMap) returns (same: bool)
    requires a.Valid() && b.Valid() && Ones(b.View())
    ensures a.View().Unique() && b.View().Unique() ==>
              (same <==> forall k :: a.View().Present(k) <==> b.View().Present(k))
  {
    hide Represents, UsedKeys, NonEmpty, InUse, Table.Probed, Table.Present, Among;
    ghost var ta, tb := a.View(), b.View();
    var ks := Keys(a);
    var count1 := 0;
    NoneAmong(ks);
    for i := 0 to |ks|
      invariant count1 == i && forall k | Among(ks, i, k) :: tb.Present(k)
    {
      forall k { AmongNext(ks, i, k); }
      count1 := count1 + 1;
      var found := Has(b, ks[i]);
      if !found {
        assert ks[i] in ks;
        return false;
      }
    }
    var js := Keys(b);
    AmongAll(ks);
    forall k | k in ks ensures k in js {
      assert Among(ks, |ks|, k);
      assert tb.Present(k);
    }
    if ta.Unique() && tb.Unique() { SameLengthSameKeys(ks, js); }
    SameKeys(ta, tb, ks, js);
    same := count1 == |js|;
  }

  lemma SameKeys(a: Table, b: Table, ks: seq<int>, js: seq<int>)
    requires (forall k :: k in ks <==> a.Present(k)) && (forall k :: k in js <==> b.Present(k)) && Inside(ks, js)
    ensures Inside(js, ks) <==> forall k :: a.Present(k) <==> b.Present(k)
  {
    hide Table.Present;
    if forall k :: a.Present(k) <==> b.Present(k) {
      forall k | k in js ensures k in ks { assert a.Present(k) <==> b.Present(k); }
    }
    if Inside(js, ks) {
      forall k ensures a.Present(k) <==> b.Present(k) { assert k in ks <==> k in js; }
    }
  }
}
