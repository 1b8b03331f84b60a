/** Open addressing with tombstones: what the arrays of a table mean (longmap.c:6-16, 24-117). */
module Tables {

  datatype Status = Empty | Used | Tombstone

  /** The arrays of a table, and where each key wants to be. */
  datatype Table = Table(keys: seq<int>, values: seq<int>, status: seq<Status>, hash: int -> int) {
    ghost predicate Shaped() {
      0 < |keys| == |values| == |status|
    }

    function Size(): nat {
      |status|
    }

    /** The first slot tried for `k`. */
    function Home(k: int): nat
      requires 0 < |status|
    {
      hash(k) % |status|
    }

    /** The slot tried after `i` others. */
    function Slot(k: int, i: nat): nat
      requires 0 < |status| && i < |status|
    {
      if Home(k) + i < |status| then Home(k) + i else Home(k) + i - |status|
    }

    /** How many slots are tried for `k` before `p`. */
    function Dist(k: int, p: nat): nat
      requires p < |status|
    {
      if p >= Home(k) then p - Home(k) else p - Home(k) + |status|
    }

    ghost predicate At(p: nat, k: int) {
      p < |status| && p < |keys| && status[p] == Used && keys[p] == k
    }

    ghost predicate Present(k: int) {
      exists p: nat :: At(p, k)
    }

    /** Every slot tried for `k` before `p` is in use or was. */
    ghost predicate NoGap(k: int, p: nat)
      requires p < |status|
    {
      forall i: nat | i < Dist(k, p) :: status[Slot(k, i)] != Empty
    }

    /** Probing from its home reaches every stored key. */
    ghost predicate Probed() {
      forall p: nat, k | At(p, k) :: NoGap(k, p)
    }

    /** No key is stored twice. */
    ghost predicate Unique() {
      forall p: nat, q: nat, k | At(p, k) && At(q, k) :: p == q
    }
  }

  lemma SlotDist(t: Table, k: int, p: nat)
    requires p < |t.status|
    ensures t.Dist(k, p) < |t.status| && t.Slot(k, t.Dist(k, p)) == p
  {
  }

  lemma DistSlot(t: Table, k: int, i: nat)
    requires i < |t.status|
    ensures t.Slot(k, i) < |t.status| && t.Dist(k, t.Slot(k, i)) == i
  {
  }

  // Counting

  function NonEmpty(s: seq<Status>): nat {
    if s == [] then 0 else NonEmpty(s[1..]) + if s[0] != Empty then 1 else 0
  }

  function InUse(s: seq<Status>): nat {
    if s == [] then 0 else InUse(s[1..]) + if s[0] == Used then 1 else 0
  }

  lemma {:induction false} CountUpdate(s: seq<Status>, p: nat, x: Status)
    requires p < |s|
    ensures NonEmpty(s[p := x]) == NonEmpty(s) + (if x != Empty then 1 else 0) - (if s[p] != Empty then 1 else 0)
    ensures InUse(s[p := x]) == InUse(s) + (if x == Used then 1 else 0) - (if s[p] == Used then 1 else 0)
  {
    if p > 0 {
      CountUpdate(s[1..], p - 1, x);
      assert s[p := x][1..] == s[1..][p - 1 := x];
    } else {
      assert s[p := x][1..] == s[1..];
    }
  }

  lemma {:induction false} CountBounds(s: seq<Status>)
    ensures InUse(s) <= NonEmpty(s) <= |s|
  {
    if s != [] { CountBounds(s[1..]); }
  }

  /** A table that is not full has an empty slot. */
  lemma {:induction false} EmptyExists(s: seq<Status>) returns (p: nat)
    requires NonEmpty(s) < |s|
    ensures p < |s| && s[p] == Empty
  {
    if s[0] == Empty {
      p := 0;
    } else {
      p := EmptyExists(s[1..]);
      p := p + 1;
    }
  }

  lemma {:induction false} CountNone(s: seq<Status>)
    requires forall p | 0 <= p < |s| :: s[p] == Empty
    ensures NonEmpty(s) == 0 && InUse(s) == 0
  {
    if s != [] { CountNone(s[1..]); }
  }

  lemma {:induction false} CountPrefix(s: seq<Status>, n: nat)
    requires n < |s|
    ensures InUse(s[..n + 1]) == InUse(s[..n]) + if s[n] == Used then 1 else 0
  {
    if n == 0 {
      assert s[..1] == [s[0]] && s[..0] == [];
      assert [s[0]][1..] == [];
    } else {
      CountPrefix(s[1..], n - 1);
      assert s[..n + 1][1..] == s[1..][..n] && s[..n][1..] == s[1..][..n - 1];
    }
  }

  lemma {:induction false} CountPrefixLess(s: seq<Status>, n: nat)
    requires n <= |s|
    ensures InUse(s[..n]) <= InUse(s)
  {
    if n > 0 {
      CountPrefixLess(s[1..], n - 1);
      assert s[..n][1..] == s[1..][..n - 1];
    }
  }

  // Probing

  /** The first `i` slots tried for `k` are occupied, but not by `k`. */
  ghost predicate Passed(t: Table, k: int, i: nat)
    requires i <= |t.status|
  {
    forall h: nat | h < i :: t.status[t.Slot(k, h)] != Empty && !t.At(t.Slot(k, h), k)
  }

  /** Probing that comes to an empty slot without meeting `k` shows that `k` is not stored. */
  lemma NotFound(t: Table, k: int, i: nat)
    requires t.Shaped() && t.Probed() && i < |t.status| && Passed(t, k, i) && t.status[t.Slot(k, i)] == Empty
    ensures !t.Present(k)
  {
    forall p: nat | p < |t.status| ensures !t.At(p, k) {
      SlotDist(t, k, p);
      assert t.At(p, k) ==> t.NoGap(k, p);
    }
  }

  /** Before an empty slot there are only slots that are not empty yet to pass. */
  lemma ProbeEnds(t: Table, k: int, i: nat, e: nat)
    requires t.Shaped() && i <= |t.status| && e < |t.status| && t.status[e] == Empty
    requires forall h: nat | h < i :: t.status[t.Slot(k, h)] != Empty
    ensures i <= t.Dist(k, e) < |t.status|
  {
    SlotDist(t, k, e);
  }

  /** One more slot passed. */
  lemma PassOne(t: Table, k: int, i: nat)
    requires t.Shaped() && i < |t.status| && Passed(t, k, i) && t.status[t.Slot(k, i)] != Empty
      && !t.At(t.Slot(k, i), k)
    requires NonEmpty(t.status) < |t.status|
    ensures i + 1 < |t.status| && Passed(t, k, i + 1) && t.Slot(k, i + 1) < |t.status|
    ensures t.Slot(k, i + 1) == if t.Slot(k, i) + 1 == |t.status| then 0 else t.Slot(k, i) + 1
  {
    hide NonEmpty;
    var e := EmptyExists(t.status);
    ProbeEnds(t, k, i + 1, e);
  }

  // Changing one slot

  function Store(t: Table, p: nat, k: int, v: int): Table
    requires t.Shaped() && p < |t.status|
  {
    t.(keys := t.keys[p := k], values := t.values[p := v], status := t.status[p := Used])
  }

  function Bury(t: Table, p: nat): Table
    requires t.Shaped() && p < |t.status|
  {
    t.(status := t.status[p := Tombstone])
  }

  lemma StoreProbed(t: Table, k: int, v: int, i: nat)
    requires t.Shaped() && t.Probed() && i < |t.status|
    requires forall h: nat | h < i :: t.status[t.Slot(k, h)] != Empty
    ensures var u := Store(t, t.Slot(k, i), k, v); u.Shaped() && u.Probed()
  {
    DistSlot(t, k, i);
    var p := t.Slot(k, i);
    var u := Store(t, p, k, v);
    forall q: nat, x | u.At(q, x) ensures u.NoGap(x, q) {
      if q == p {
        assert u.Dist(x, q) == i;
        forall h: nat | h < i ensures u.status[u.Slot(x, h)] != Empty { assert u.Slot(x, h) == t.Slot(k, h); }
      } else {
        assert t.At(q, x) && t.NoGap(x, q);
        forall h: nat | h < u.Dist(x, q)
          ensures u.status[u.Slot(x, h)] != Empty
        {
          assert t.status[t.Slot(x, h)] != Empty;
        }
      }
    }
  }

  lemma BuryProbed(t: Table, p: nat)
    requires t.Shaped() && t.Probed() && p < |t.status| && t.status[p] == Used
    ensures Bury(t, p).Shaped() && Bury(t, p).Probed()
  {
    var u := Bury(t, p);
    forall q: nat, x | u.At(q, x) ensures u.NoGap(x, q) {
      assert t.At(q, x) && t.NoGap(x, q);
      forall h: nat | h < u.Dist(x, q)
        ensures u.status[u.Slot(x, h)] != Empty
      {
        assert t.status[t.Slot(x, h)] != Empty;
      }
    }
  }

  // The map a table stands for

  /** The keys are those stored, with the values stored with them; each is stored once. */
  ghost predicate Represents(t: Table, m: map<int, int>) {
    && t.Shaped() && t.Unique()
    && (forall k :: k in m <==> t.Present(k))
    && (forall p: nat, k | t.At(p, k) && k in m :: t.values[p] == m[k])
  }

  /** A tombstone lies before the slot of `k` on the way to it. */
  ghost predicate Shadowed(t: Table, k: int)
    requires t.Shaped()
  {
    exists i: nat, j: nat :: i < j < |t.status| && t.status[t.Slot(k, i)] == Tombstone && t.At(t.Slot(k, j), k)
  }

  /** Storing at the first slot that is free or holds `k` changes the map at `k` if no tombstone is in the way, and
      stores `k` twice otherwise. */
  lemma StoreRepresents(t: Table, m: map<int, int>, k: int, v: int, i: nat)
    requires Represents(t, m) && t.Probed() && i < |t.status|
    requires forall h: nat | h < i :: t.status[t.Slot(k, h)] == Used && !t.At(t.Slot(k, h), k)
    requires t.status[t.Slot(k, i)] != Used || t.At(t.Slot(k, i), k)
    ensures var u := Store(t, t.Slot(k, i), k, v);
      && (Shadowed(t, k) ==> !u.Unique())
      && (!Shadowed(t, k) ==> Represents(u, m[k := v]))
  {
    var p := t.Slot(k, i);
    var u := Store(t, p, k, v);
    DistSlot(t, k, i);
    if Shadowed(t, k) {
      var a: nat, j: nat :| a < j < |t.status| && t.status[t.Slot(k, a)] == Tombstone && t.At(t.Slot(k, j), k);
      DistSlot(t, k, j);
      assert u.At(p, k) && u.At(t.Slot(k, j), k);
    } else {
      NoOther(t, k, i);
      StoredOnce(t, m, k, v, p);
    }
  }

  /** Without a tombstone in the way `k` is stored nowhere but, perhaps, at the slot found. */
  lemma NoOther(t: Table, k: int, i: nat)
    requires t.Shaped() && t.Probed() && i < |t.status| && !Shadowed(t, k)
    requires forall h: nat | h < i :: t.status[t.Slot(k, h)] == Used && !t.At(t.Slot(k, h), k)
    requires t.status[t.Slot(k, i)] != Used || (t.At(t.Slot(k, i), k) && t.Unique())
    ensures forall q: nat | t.At(q, k) :: q == t.Slot(k, i)
  {
    forall q: nat | t.At(q, k) ensures q == t.Slot(k, i) {
      SlotDist(t, k, q);
      assert t.NoGap(k, q);
    }
  }

  lemma StoredOnce(t: Table, m: map<int, int>, k: int, v: int, p: nat)
    requires Represents(t, m)
      && p < |t.status| && (t.status[p] != Used || t.At(p, k)) && forall q: nat | t.At(q, k) :: q == p
    ensures Represents(Store(t, p, k, v), m[k := v])
  {
    var u := Store(t, p, k, v);
    forall x ensures x in m[k := v] <==> u.Present(x) {
      if x == k { assert u.At(p, k); }
      if x in m && x != k {
        var q: nat :| t.At(q, x);
        assert u.At(q, x);
      }
      if u.Present(x) && x != k {
        var q: nat :| u.At(q, x);
        assert t.At(q, x);
      }
    }
    forall a: nat, b: nat, x | u.At(a, x) && u.At(b, x) ensures a == b {
      if x != k { assert t.At(a, x) && t.At(b, x); } else { assert a != p ==> t.At(a, k); assert b != p ==>
          t.At(b, k); }
    }
    forall q: nat, x | u.At(q, x) && x in m[k := v] ensures u.values[q] == m[k := v][x] {
      if q != p { assert t.At(q, x); }
    }
  }

  /** Burying the slot of `k` removes it from the map. */
  lemma BuryRepresents(t: Table, m: map<int, int>, p: nat, k: int)
    requires Represents(t, m) && t.At(p, k)
    ensures Represents(Bury(t, p), m - {k})
  {
    var u := Bury(t, p);
    forall x ensures x in m - {k} <==> u.Present(x) {
      if x in m && x != k {
        var q: nat :| t.At(q, x);
        assert u.At(q, x);
      }
      if u.Present(x) {
        var q: nat :| u.At(q, x);
        assert t.At(q, x);
      }
    }
    forall a: nat, x | u.At(a, x) ensures t.At(a, x) {}
  }

  // Rehashing

  /** The entries in the first `n` slots. */
  ghost function PrefixMap(t: Table, n: nat): map<int, int>
    requires t.Shaped() && n <= |t.status|
  {
    if n == 0 then map[]
    else if t.status[n - 1] == Used then PrefixMap(t, n - 1)[t.keys[n - 1] := t.values[n - 1]]
    else PrefixMap(t, n - 1)
  }

  lemma {:induction false} PrefixMapKeys(t: Table, n: nat, k: int)
    requires t.Shaped() && n <= |t.status|
    ensures k in PrefixMap(t, n) <==> exists p: nat :: p < n && t.At(p, k)
  {
    if n > 0 {
      PrefixMapKeys(t, n - 1, k);
      if p: nat :| p < n - 1 && t.At(p, k) { assert p < n; }
      if t.status[n - 1] == Used { assert t.At(n - 1, t.keys[n - 1]); }
    }
  }

  lemma {:induction false} PrefixMapValues(t: Table, n: nat, m: map<int, int>, k: int)
    requires Represents(t, m) && n <= |t.status| && k in PrefixMap(t, n)
    ensures k in m && PrefixMap(t, n)[k] == m[k]
  {
    if n > 0 {
      if t.status[n - 1] == Used && t.keys[n - 1] == k {
        assert t.At(n - 1, k);
      } else {
        PrefixMapValues(t, n - 1, m, k);
      }
    }
  }

  lemma PrefixMapIsAll(t: Table, m: map<int, int>)
    requires Represents(t, m)
    ensures PrefixMap(t, |t.status|) == m
  {
    forall k ensures k in PrefixMap(t, |t.status|) <==> k in m { PrefixMapKeys(t, |t.status|, k); }
    forall k | k in m ensures PrefixMap(t, |t.status|)[k] == m[k] { PrefixMapValues(t, |t.status|, m, k); }
  }

  /** What has been moved from the first `n` slots of `was` to the new table `t`. */
  ghost predicate Moved(was: Table, n: nat, t: Table) {
    && was.Shaped() && t.Shaped() && n <= |was.status| && |was.status| <= |t.status| && t.Probed()
    && (forall p | 0 <= p < |t.status| :: t.status[p] != Tombstone)
    && InUse(t.status) == NonEmpty(t.status) == InUse(was.status[..n])
    && (was.Unique() ==> Represents(t, PrefixMap(was, n)))
  }

  lemma MoveOne(was: Table, n: nat, t: Table, i: nat)
    requires Moved(was, n, t) && n < |was.status| && was.status[n] == Used && i < |t.status|
    requires forall h: nat | h < i :: t.status[t.Slot(was.keys[n], h)] != Empty
    requires t.status[t.Slot(was.keys[n], i)] == Empty
    ensures Moved(was, n + 1, Store(t, t.Slot(was.keys[n], i), was.keys[n], was.values[n]))
  {
    hide PrefixMap, Represents;
    var k, v := was.keys[n], was.values[n];
    var p := t.Slot(k, i);
    StoreProbed(t, k, v, i);
    CountUpdate(t.status, p, Used);
    CountPrefix(was.status, n);
    if was.Unique() {
      NotYetMoved(was, n, t);
      StoredOnce(t, PrefixMap(was, n), k, v, p);
      PrefixMapNext(was, n);
    }
  }

  lemma PrefixMapNext(t: Table, n: nat)
    requires t.Shaped() && n < |t.status|
    ensures PrefixMap(t, n + 1) == if t.status[n] ==
            Used then PrefixMap(t, n)[t.keys[n] := t.values[n]] else PrefixMap(t, n)
  {
  }

  lemma NotYetMoved(was: Table, n: nat, t: Table)
    requires Moved(was, n, t) && n < |was.status| && was.status[n] == Used && was.Unique()
    ensures forall q: nat :: !t.At(q, was.keys[n])
  {
    PrefixMapKeys(was, n, was.keys[n]);
    assert was.At(n, was.keys[n]);
    forall q: nat ensures !t.At(q, was.keys[n]) { assert t.At(q, was.keys[n]) ==> t.Present(was.keys[n]); }
  }

  lemma SkipOne(was: Table, n: nat, t: Table)
    requires Moved(was, n, t) && n < |was.status| && was.status[n] != Used
    ensures Moved(was, n + 1, t)
  {
    CountPrefix(was.status, n);
    PrefixMapNext(was, n);
  }

  // Counterexample

  /** The hash function that new tables have. */
  function Itself(): int -> int {
    k => k
  }

  /** A table of size 16 with a tombstone at slot 0 and the key 16 at slot 1. */
  function AfterDelete(): Table {
    Table([0, 16] + seq(14, _ => 0), [5, 1] + seq(14, _ => 0), [Tombstone, Used] + seq(14, _ => Empty), Itself())
  }

  /** Putting the stored key 16 again stores it a second time; deleting it then brings the old value back. */
  lemma StoredTwice()
    ensures var t := AfterDelete();
      && t.Probed() && Represents(t, map[16 := 1]) && Shadowed(t, 16)
      && var u := Store(t, t.Slot(16, 0), 16, 2);
      && !u.Unique()
      && var w := Bury(u, u.Slot(16, 0));
      && w.At(1, 16) && w.values[1] == 1
  {
    var t := AfterDelete();
    assert t.At(1, 16) && t.Dist(16, 1) == 1 && t.Slot(16, 0) == 0 && t.Slot(16, 1) == 1;
    forall p: nat, k | t.At(p, k) ensures p == 1 && k == 16 {}
    var u := Store(t, 0, 16, 2);
    assert u.At(0, 16) && u.At(1, 16);
  }
}
