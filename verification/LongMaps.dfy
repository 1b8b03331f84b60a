/** The hash map (longmap.c). */
module LongMaps {
  import opened Tables

  const DEFAULT_SIZE: nat := 16
  const MAX_LOAD_FACTOR: nat := 666
  const EXPANSION_FACTOR: nat := 333

  /** Keys and values are numbers; the value 0 is the null pointer, which `Get` returns for a key that is not stored. */
  class LongMap {
    var keys: array<int>
    var values: array<int>
    var status: array<Status>
    var usedCount: int
    var elementCount: int
    const hashfunc: int -> int

    ghost function View(): Table
      reads this, keys, values, status
    {
      Table(keys[..], values[..], status[..], hashfunc)
    }

    /** What holds in every run: the counts are right, some slot is empty, and probing finds what is stored. */
    ghost predicate Valid()
      reads this, keys, values, status
    {
      && keys.Length == values.Length == status.Length >= DEFAULT_SIZE && keys != values
      && usedCount == NonEmpty(status[..]) && elementCount == InUse(status[..])
      && usedCount < status.Length && View().Probed()
    }

    ghost function Arrays(): set<object>
      reads this
    {
      {keys, values, status}
    }

    constructor (hashfunc: int -> int)
      ensures Valid() && fresh(Arrays()) && this.hashfunc == hashfunc && Represents(View(), map[])
      ensures status.Length == 16
      ensures NoTombstones(View()) && View() == Unused(hashfunc)
    {
      this.hashfunc := hashfunc;
      keys := new int[DEFAULT_SIZE](_ => 0);
      values := new int[DEFAULT_SIZE](_ => 0);
      status := new Status[DEFAULT_SIZE](_ => Empty);
      usedCount, elementCount := 0, 0;
      new;
      CountNone(status[..]);
    }

    /** The value stored with `key` in the first slot that holds it; 0 if none does. */
    method Get(key: int) returns (value: int)
      requires Valid()
      ensures !View().Present(key) ==> value == 0
      ensures View().Present(key) ==> exists i: nat :: FirstAt(View(), key, i) && value == values[View().Slot(key, i)]
    {
      hide Table.Probed, Passed, NonEmpty, InUse, Table.Slot;
      ghost var t := View();
      var pos := hashfunc(key) % status.Length;
      ghost var i := 0;
      NonePassed(t, key);
      while status[pos] != Empty
        invariant i < |t.status| && pos == t.Slot(key, i) < status.Length && Passed(t, key, i)
        decreases |t.status| - i
      {
        if status[pos] != Tombstone && keys[pos] == key {
          FirstHere(t, key, i);
          return values[pos];
        }
        PassOne(t, key, i);
        pos := if pos + 1 == status.Length then 0 else pos + 1;
        i := i + 1;
      }
      NotFound(t, key, i);
      value := 0;
    }

    /** Turn the first slot that holds `key` into a tombstone. */
    method Delete(key: int)
      requires Valid()
      modifies this`elementCount, status
      ensures Valid() && keys == old(keys) && values == old(values) && status == old(status)
      ensures !old(View()).Present(key) ==> View() == old(View())
      ensures old(View()).Present(key) ==> exists i: nat ::
                FirstAt(old(View()), key, i) && View() == Bury(old(View()), old(View()).Slot(key, i))
      ensures forall m | Represents(old(View()), m) :: Represents(View(), m - {key})
    {
      hide Table.Probed, Passed, NonEmpty, InUse, Table.Slot, Represents;
      ghost var t := View();
      var pos := hashfunc(key) % status.Length;
      ghost var i := 0;
      NonePassed(t, key);
      while status[pos] != Empty
        invariant i < |t.status| && pos == t.Slot(key, i) < status.Length && Passed(t, key, i) && View() == t
        invariant elementCount == old(elementCount)
        decreases |t.status| - i
      {
        if status[pos] != Tombstone && keys[pos] == key {
          FirstHere(t, key, i);
          status[pos] := Tombstone;
          elementCount := elementCount - 1;
          Deleted(t, key, pos);
          assert View() == Bury(t, pos);
          return;
        }
        PassOne(t, key, i);
        pos := if pos + 1 == status.Length then 0 else pos + 1;
        i := i + 1;
      }
      NotFound(t, key, i);
      NothingDeleted(t, key);
    }

    predicate NeedsRehash()
      reads this, status
    {
      usedCount * 1000 >= status.Length * MAX_LOAD_FACTOR
    }

    /** Move everything to new arrays, of twice the size unless tombstones are what fills the old ones. */
    method MaybeRehash()
      requires Valid()
      modifies this
      ensures Valid() && usedCount * 1000 < status.Length * MAX_LOAD_FACTOR
      ensures Arrays() == old(Arrays()) || fresh(Arrays())
      ensures old(NeedsRehash()) <==> 1000 * old(usedCount) >= 666 * old(status.Length)
      ensures var rehash, crowded := 1000 * old(usedCount) >= 666 * old(status.Length),
                                     1000 * old(elementCount) >= 333 * old(status.Length);
        status.Length == if rehash && crowded then 2 * old(status.Length) else old(status.Length)
      ensures !old(NeedsRehash()) ==>
                keys == old(keys) && values == old(values) && status == old(status) && View() == old(View())
      ensures old(NeedsRehash()) ==> NoTombstones(View())
      ensures SameMap(old(View()), View())
      ensures NoTombstones(old(View())) ==> NoTombstones(View())
    {
      hide Table.Probed, NonEmpty, InUse, Table.Slot, Represents, Table.At, Store;
      if usedCount * 1000 < status.Length * MAX_LOAD_FACTOR { return; }
      var grow := elementCount * 1000 >= status.Length * EXPANSION_FACTOR;
      var newSize := if grow then status.Length * 2 else status.Length;
      ghost var was := View();
      var newKeys := new int[newSize](_ => 0);
      var newValues := new int[newSize](_ => 0);
      var newStatus := new Status[newSize](_ => Empty);
      MoveAll(keys, values, status, hashfunc, newKeys, newValues, newStatus);
      AllMoved(was, Table(newKeys[..], newValues[..], newStatus[..], hashfunc));
      keys, values, status := newKeys, newValues, newStatus;
      usedCount := elementCount;
    }

    /** Fill the first slot that is free or holds `key`. */
    method Place(key: int, value: int)
      requires Valid() && usedCount * 1000 < status.Length * MAX_LOAD_FACTOR
      modifies this`usedCount, this`elementCount, keys, values, status
      ensures Valid()
      ensures exists i: nat :: FirstAt(View(), key, i) && values[View().Slot(key, i)] == value
      ensures PutInMap(old(View()), View(), key, value, Shadowed(old(View()), key))
      ensures PlacedIn(old(View()), View(), key, value)
      ensures NoTombstones(old(View())) ==> NoTombstones(View())
    {
      hide Table.Probed, NonEmpty, InUse, Table.Slot, Represents, Shadowed, Occupied, PutInMap, Table.Unique;
      ghost var t := View();
      ghost var i;
      var pos;
      pos, i := FreeOrSame(key);
      if status[pos] != Used {
        if status[pos] == Empty { usedCount := usedCount + 1; }
        elementCount := elementCount + 1;
      }
      Fill(keys, values, status, pos, key, value);
      assert View() == Store(t, pos, key, value);
      assert PlacedAt(t, View(), key, value, i);
      Stored(t, key, value, i);
    }

    /** Store `value` for `key`, after making room if necessary. */
    method Put(key: int, value: int)
      requires Valid()
      modifies this, keys, values, status
      ensures Valid() && (Arrays() == old(Arrays()) || fresh(Arrays()))
      ensures exists i: nat :: FirstAt(View(), key, i) && values[View().Slot(key, i)] == value
      ensures PutInMap(old(View()), View(), key, value, !old(NeedsRehash()) && Shadowed(old(View()), key))
      ensures !old(NeedsRehash()) ==> PlacedIn(old(View()), View(), key, value)
      ensures NoTombstones(old(View())) ==> NoTombstones(View())
    {
      hide Table.Probed, NonEmpty, InUse, Table.Slot, Represents, Shadowed, PutInMap, SameMap, Table.Unique, FirstAt;
      hide NoTombstones, PlacedIn;
      ghost var before, rehash := View(), NeedsRehash();
      MaybeRehash();
      ghost var t := View();
      NoTombstoneNoShadow(t, key);
      Place(key, value);
      PutAfterRehash(before, t, View(), key, value, !rehash);
    }

    /** Forget everything; the arrays keep their size. */
    method Clear()
      requires Valid()
      modifies this, status
      ensures Valid() && Represents(View(), map[]) && NoTombstones(View()) && Arrays() == old(Arrays())
        && status == old(status)
    {
      for i := 0 to status.Length
        invariant keys == old(keys) && values == old(values) && status == old(status)
        invariant forall p | 0 <= p < i :: status[p] == Empty
      {
        status[i] := Empty;
      }
      usedCount, elementCount := 0, 0;
      CountNone(status[..]);
    }

    /** The first slot tried for `key` that is not in use or holds `key`. */
    method FreeOrSame(key: int) returns (pos: nat, ghost i: nat)
      requires Valid()
      ensures pos < status.Length && i < status.Length && pos == View().Slot(key, i) && Occupied(View(), key, i)
      ensures status[pos] != Used || View().At(pos, key)
    {
      hide Table.Probed, NonEmpty, InUse, Table.Slot, Occupied;
      ghost var t := View();
      NoneOccupied(t, key);
      pos, i := hashfunc(key) % status.Length, 0;
      while status[pos] == Used && keys[pos] != key
        invariant i < |t.status| && pos == t.Slot(key, i) < status.Length && Occupied(t, key, i)
        decreases |t.status| - i
      {
        OccupiedOne(t, key, i);
        pos := if pos + 1 == status.Length then 0 else pos + 1;
        i := i + 1;
      }
    }
  }

  /** Put the entries of one table into another, which is empty, in the order of their slots. */
  method MoveAll(keys: array<int>, values: array<int>, status: array<Status>, hashfunc: int -> int,
                 newKeys: array<int>, newValues: array<int>, newStatus: array<Status>)
    requires keys.Length == values.Length == status.Length > 0 && {keys, values} !! {newKeys, newValues}
      && status != newStatus
    requires newKeys.Length == newValues.Length == newStatus.Length >= status.Length && newKeys != newValues
    requires forall p | 0 <= p < newStatus.Length :: newStatus[p] == Empty
    modifies newKeys, newValues, newStatus
    ensures Moved(Table(keys[..], values[..], status[..], hashfunc), status.Length,
                  Table(newKeys[..], newValues[..], newStatus[..], hashfunc))
  {
    hide Moved, NonEmpty, Table.Slot;
    ghost var was := Table(keys[..], values[..], status[..], hashfunc);
    NothingMoved(was, Table(newKeys[..], newValues[..], newStatus[..], hashfunc));
    for i := 0 to status.Length
      invariant was == Table(keys[..], values[..], status[..], hashfunc)
      invariant Moved(was, i, Table(newKeys[..], newValues[..], newStatus[..], hashfunc))
    {
      ghost var t := Table(newKeys[..], newValues[..], newStatus[..], hashfunc);
      if status[i] == Used {
        MoveHasRoom(was, i, t);
        ghost var h := InsertFresh(newKeys, newValues, newStatus, hashfunc, keys[i], values[i]);
        MoveOne(was, i, t, h);
      } else {
        SkipOne(was, i, t);
      }
    }
  }

  /** Fill one slot. */
  method Fill(keys: array<int>, values: array<int>, status: array<Status>, pos: nat, key: int, value: int)
    requires pos < keys.Length == values.Length == status.Length && keys != values
    modifies keys, values, status
    ensures keys[..] == old(keys[..])[pos := key] && values[..] == old(values[..])[pos := value]
    ensures status[..] == old(status[..])[pos := Used]
  {
    keys[pos] := key;
    values[pos] := value;
    status[pos] := Used;
  }

  /** Put into the first empty slot tried for `key`; there is one. */
  method InsertFresh(keys: array<int>, values: array<int>, status: array<Status>, hashfunc: int -> int, key: int,
                     value: int)
    returns (ghost i: nat)
    requires keys.Length == values.Length == status.Length > 0 && keys != values && NonEmpty(status[..]) < status.Length
    modifies keys, values, status
    ensures var t := old(Table(keys[..], values[..], status[..], hashfunc));
      && i < |t.status| && t.Slot(key, i) < |t.status| && t.status[t.Slot(key, i)] == Empty
      && (forall h: nat | h < i :: t.status[t.Slot(key, h)] != Empty)
      && Table(keys[..], values[..], status[..], hashfunc) == Store(t, t.Slot(key, i), key, value)
  {
    hide NonEmpty, Table.Slot, Blocked;
    ghost var t := Table(keys[..], values[..], status[..], hashfunc);
    var pos := hashfunc(key) % status.Length;
    i := 0;
    NoneBlocked(t, key);
    while status[pos] != Empty
      invariant i < |t.status| && pos == t.Slot(key, i) < status.Length && Blocked(t, key, i)
      invariant t == Table(keys[..], values[..], status[..], hashfunc)
      decreases |t.status| - i
    {
      BlockedOne(t, key, i);
      pos := if pos + 1 == status.Length then 0 else pos + 1;
      i := i + 1;
    }
    Fill(keys, values, status, pos, key, value);
    BlockedMeans(t, key, i);
  }

  /** The first `i` slots tried for `k` are taken. */
  ghost predicate Blocked(t: Table, k: int, i: nat)
    requires i <= |t.status|
  {
    forall h: nat | h < i :: t.status[t.Slot(k, h)] != Empty
  }

  lemma NoneBlocked(t: Table, k: int)
    requires t.Shaped()
    ensures Blocked(t, k, 0) && t.Slot(k, 0) == t.Home(k) < |t.status|
  {
  }

  lemma BlockedOne(t: Table, k: int, i: nat)
    requires t.Shaped()
      && i < |t.status| && Blocked(t, k, i) && t.status[t.Slot(k, i)] != Empty && NonEmpty(t.status) < |t.status|
    ensures i + 1 < |t.status| && Blocked(t, k, i + 1) && t.Slot(k, i + 1) < |t.status|
    ensures t.Slot(k, i + 1) == if t.Slot(k, i) + 1 == |t.status| then 0 else t.Slot(k, i) + 1
  {
    hide NonEmpty;
    var e := EmptyExists(t.status);
    ProbeEnds(t, k, i + 1, e);
  }

  lemma BlockedMeans(t: Table, k: int, i: nat)
    requires i <= |t.status| && Blocked(t, k, i)
    ensures forall h: nat | h < i :: t.status[t.Slot(k, h)] != Empty
  {
  }

  /** Whatever map the old table stands for, the new one stands for it too. */
  ghost predicate SameMap(t: Table, u: Table) {
    forall m | Represents(t, m) :: Represents(u, m)
  }

  /** Whatever map the old table stands for, the new one stands for it with `k` set to `v`; or, if `stacked`, for
      none. */
  ghost predicate PutInMap(t: Table, u: Table, k: int, v: int, stacked: bool) {
    forall m | Represents(t, m) :: if stacked then !u.Unique() else Represents(u, m[k := v])
  }

  lemma PutAfterRehash(before: Table, t: Table, u: Table, k: int, v: int, same: bool)
    requires t.Shaped() && SameMap(before, t) && PutInMap(t, u, k, v, Shadowed(t, k))
    requires if same then t == before else !Shadowed(t, k)
    ensures PutInMap(before, u, k, v, same && Shadowed(before, k))
  {
    hide Represents, Shadowed;
  }

  /** The first `i` slots tried for `k` hold other keys. */
  ghost predicate Occupied(t: Table, k: int, i: nat)
    requires i <= |t.status|
  {
    forall h: nat | h < i :: t.status[t.Slot(k, h)] == Used && !t.At(t.Slot(k, h), k)
  }

  /** `u` is `t` with the value stored at the first slot tried that is not in use or holds `k`. */
  ghost predicate PlacedIn(t: Table, u: Table, k: int, v: int) {
    t.Shaped() && exists i: nat :: PlacedAt(t, u, k, v, i)
  }

  ghost predicate PlacedAt(t: Table, u: Table, k: int, v: int, i: nat)
    requires t.Shaped()
  {
    && i < |t.status| && Occupied(t, k, i) && (t.status[t.Slot(k, i)] != Used || t.At(t.Slot(k, i), k))
    && u == Store(t, t.Slot(k, i), k, v)
  }

  lemma NoneOccupied(t: Table, k: int)
    requires t.Shaped()
    ensures Occupied(t, k, 0) && t.Slot(k, 0) == t.Home(k) < |t.status|
  {
  }

  lemma OccupiedOne(t: Table, k: int, i: nat)
    requires t.Shaped() && i < |t.status| && Occupied(t, k, i) && t.status[t.Slot(k, i)] == Used
      && !t.At(t.Slot(k, i), k)
    requires NonEmpty(t.status) < |t.status|
    ensures i + 1 < |t.status| && Occupied(t, k, i + 1) && t.Slot(k, i + 1) < |t.status|
    ensures t.Slot(k, i + 1) == if t.Slot(k, i) + 1 == |t.status| then 0 else t.Slot(k, i) + 1
  {
    hide NonEmpty;
    PassOne(t, k, i);
  }

  /** After storing at the slot found. */
  lemma Stored(t: Table, k: int, v: int, i: nat)
    requires t.Shaped() && t.Probed() && i < |t.status| && Occupied(t, k, i)
    requires t.status[t.Slot(k, i)] != Used || t.At(t.Slot(k, i), k)
    ensures var p, u := t.Slot(k, i), Store(t, t.Slot(k, i), k, v);
      && u.Shaped() && u.Probed() && FirstAt(u, k, i) && u.values[u.Slot(k, i)] == v
      && NonEmpty(u.status) == NonEmpty(t.status) + (if t.status[p] == Empty then 1 else 0)
      && InUse(u.status) == InUse(t.status) + (if t.status[p] == Used then 0 else 1)
      && PutInMap(t, u, k, v, Shadowed(t, k))
  {
    hide NonEmpty, InUse, Represents, Shadowed;
    StoreProbed(t, k, v, i);
    CountUpdate(t.status, t.Slot(k, i), Used);
    var u := Store(t, t.Slot(k, i), k, v);
    DistSlot(t, k, i);
    forall h: nat | h < i ensures !u.At(u.Slot(k, h), k) {
      DistSlot(t, k, h);
      assert t.Slot(k, h) == u.Slot(k, h);
    }
    forall m | Represents(t, m)
      ensures (Shadowed(t, k) ==> !u.Unique()) && (!Shadowed(t, k) ==> Represents(u, m[k := v]))
    {
      StoreRepresents(t, m, k, v, i);
    }
  }

  ghost predicate NoTombstones(t: Table) {
    forall p | 0 <= p < |t.status| :: t.status[p] != Tombstone
  }

  lemma NoTombstoneNoShadow(t: Table, k: int)
    requires t.Shaped()
    ensures NoTombstones(t) ==> !Shadowed(t, k)
  {
  }

  lemma Deleted(t: Table, k: int, p: nat)
    requires t.Shaped() && t.Probed() && t.At(p, k)
    ensures Bury(t, p).Shaped() && Bury(t, p).Probed()
    ensures NonEmpty(Bury(t, p).status) == NonEmpty(t.status) && InUse(Bury(t, p).status) == InUse(t.status) - 1
    ensures forall m | Represents(t, m) :: Represents(Bury(t, p), m - {k})
  {
    hide NonEmpty, InUse, Represents;
    BuryProbed(t, p);
    CountUpdate(t.status, p, Tombstone);
    forall m | Represents(t, m) ensures Represents(Bury(t, p), m - {k}) { BuryRepresents(t, m, p, k); }
  }

  lemma NothingDeleted(t: Table, k: int)
    requires !t.Present(k)
    ensures forall m | Represents(t, m) :: Represents(t, m - {k})
  {
    forall m | Represents(t, m) ensures m - {k} == m {}
  }

  lemma NothingMoved(was: Table, t: Table)
    requires was.Shaped() && t.Shaped()
      && |was.status| <= |t.status| && forall p | 0 <= p < |t.status| :: t.status[p] == Empty
    ensures Moved(was, 0, t)
  {
    CountNone(t.status);
    assert was.status[..0] == [];
  }

  lemma MoveHasRoom(was: Table, n: nat, t: Table)
    requires Moved(was, n, t) && n < |was.status| && was.status[n] == Used
    ensures t.Shaped() && NonEmpty(t.status) < |t.status|
  {
    CountPrefix(was.status, n);
    CountPrefixLess(was.status, n + 1);
    CountBounds(was.status);
  }

  lemma AllMoved(was: Table, t: Table)
    requires Moved(was, |was.status|, t)
    ensures t.Shaped() && t.Probed() && (forall p | 0 <= p < |t.status| :: t.status[p] != Tombstone)
    ensures InUse(t.status) == NonEmpty(t.status) == InUse(was.status)
    ensures InUse(was.status) <= NonEmpty(was.status)
    ensures SameMap(was, t)
  {
    hide PrefixMap;
    assert was.status[..|was.status|] == was.status;
    CountBounds(was.status);
    forall m | Represents(was, m) ensures Represents(t, m) { PrefixMapIsAll(was, m); }
  }

  /** The `i`-th slot tried for `k` is the first that holds it. */
  ghost predicate FirstAt(t: Table, k: int, i: nat) {
    0 < |t.status| && i < |t.status| && t.At(t.Slot(k, i), k) && forall h: nat | h < i :: !t.At(t.Slot(k, h), k)
  }

  lemma NonePassed(t: Table, k: int)
    requires t.Shaped()
    ensures Passed(t, k, 0) && t.Slot(k, 0) == t.Home(k) < |t.status|
  {
  }

  lemma FirstHere(t: Table, k: int, i: nat)
    requires t.Shaped() && i < |t.status| && Passed(t, k, i) && t.At(t.Slot(k, i), k)
    ensures FirstAt(t, k, i) && t.Present(k)
  {
  }

  /** In a table that represents a map, `Get` looks the key up in the map. */
  lemma FirstIsValue(t: Table, m: map<int, int>, k: int, i: nat)
    requires Represents(t, m) && FirstAt(t, k, i)
    ensures k in m && t.values[t.Slot(k, i)] == m[k]
  {
  }

  // Iteration

  /** `q` is the next slot in use after `p`, or -1 if there is none. */
  ghost predicate NextUsed(s: seq<Status>, p: int, q: int) {
    if q == -1 then forall i | p < i < |s| && 0 <= i :: s[i] != Used
    else p < q < |s| && 0 <= q && s[q] == Used && forall i | p < i < q && 0 <= i :: s[i] != Used
  }

  class MapIterator {
    const table: LongMap
    var pos: int
    const originalSize: nat

    constructor (m: LongMap)
      requires m.Valid()
      ensures table == m && originalSize == m.status.Length && NextUsed(m.status[..], -1, pos) && Valid()
    {
      table, pos, originalSize := m, -1, m.status.Length;
      new;
      var ok := Next();
    }

    ghost predicate Valid()
      reads this, table
    {
      -1 <= pos < table.status.Length
    }

    /** Go to the next slot in use. It is an error if the size of the map has changed. */
    method Next() returns (ok: bool)
      requires table.Valid() && Valid()
      modifies this`pos
      ensures Valid() && (ok <==> originalSize == table.status.Length)
      ensures ok ==> NextUsed(table.status[..], old(pos), pos)
      ensures !ok ==> pos == old(pos)
    {
      if originalSize != table.status.Length { return false; }
      var was := pos;
      var next := pos + 1;
      while next < table.status.Length && table.status[next] != Used
        invariant was < next <= table.status.Length
        invariant forall i | was < i < next :: table.status[i] != Used
      {
        next := next + 1;
      }
      pos := if next == table.status.Length then -1 else next;
      ok := true;
    }
  }

  /** The keys in use in the first `n` slots, in the order of the slots. */
  ghost function UsedKeys(t: Table, n: nat): seq<int>
    requires t.Shaped() && n <= |t.status|
  {
    if n == 0 then [] else UsedKeys(t, n - 1) + if t.status[n - 1] == Used then [t.keys[n - 1]] else []
  }

  lemma {:induction false} UsedKeysSkip(t: Table, n: nat, m: nat)
    requires t.Shaped() && n <= m <= |t.status| && forall i | n <= i < m :: t.status[i] != Used
    ensures UsedKeys(t, m) == UsedKeys(t, n)
  {
    if n < m { UsedKeysSkip(t, n, m - 1); }
  }

  ghost predicate DistinctKeys<T(!new)>(ks: seq<T>) {
    forall i, j | 0 <= i < j < |ks| :: ks[i] != ks[j]
  }

  /** All keys, by iteration. */
  method Keys(m: LongMap) returns (ks: seq<int>)
    requires m.Valid()
    ensures ks == UsedKeys(m.View(), m.status.Length)
    ensures forall k :: k in ks <==> m.View().Present(k)
    ensures m.View().Unique() ==> DistinctKeys(ks)
  {
    hide Table.Probed, NonEmpty, InUse, Table.Unique, Table.Present;
    ks := [];
    var it := new MapIterator(m);
    ghost var last := -1;
    ghost var t := m.View();
    while it.pos != -1
      invariant it.table == m && it.originalSize == m.status.Length && it.Valid() && m.Valid() && m.View() == t
      invariant -1 <= last < m.status.Length && NextUsed(m.status[..], last, it.pos) && ks == UsedKeys(t, last + 1)
      decreases m.status.Length - last
    {
      UsedKeysSkip(t, last + 1, it.pos);
      ks := ks + [m.keys[it.pos]];
      last := it.pos;
      var ok := it.Next();
    }
    UsedKeysSkip(t, last + 1, m.status.Length);
    forall k { PresentIsUsed(t, k); }
    if t.Unique() { UniqueKeysDistinct(t); }
  }

  lemma {:induction false} KeysVisitedOnce(t: Table, m: map<int, int>, n: nat)
    requires Represents(t, m) && n <= |t.status|
    ensures forall k :: k in UsedKeys(t, n) <==> exists p: nat :: p < n && t.At(p, k)
    ensures forall i, j | 0 <= i < j < |UsedKeys(t, n)| :: UsedKeys(t, n)[i] != UsedKeys(t, n)[j]
  {
    if n > 0 {
      KeysVisitedOnce(t, m, n - 1);
      var ks := UsedKeys(t, n - 1);
      if t.status[n - 1] == Used {
        assert t.At(n - 1, t.keys[n - 1]);
        assert t.keys[n - 1] !in ks;
      }
      forall k ensures k in UsedKeys(t, n) <==> exists p: nat :: p < n && t.At(p, k) {
        if k in ks {
          var p: nat :| p < n - 1 && t.At(p, k);
          assert p < n;
        }
      }
    }
  }

  /** Iteration over a table that represents a map visits each key of the map once. */
  lemma AllKeysVisited(t: Table, m: map<int, int>)
    requires Represents(t, m)
    ensures forall k :: k in UsedKeys(t, |t.status|) <==> k in m
    ensures DistinctKeys(UsedKeys(t, |t.status|))
  {
    KeysVisitedOnce(t, m, |t.status|);
    forall k ensures k in UsedKeys(t, |t.status|) <==> k in m {
      if k in m {
        var p: nat :| t.At(p, k);
        assert p < |t.status|;
      }
    }
  }

  lemma {:induction false} UsedKeysPresent(t: Table, n: nat, k: int)
    requires t.Shaped() && n <= |t.status|
    ensures k in UsedKeys(t, n) <==> exists p: nat :: p < n && t.At(p, k)
  {
    if n > 0 {
      UsedKeysPresent(t, n - 1, k);
      if t.status[n - 1] == Used { assert t.At(n - 1, t.keys[n - 1]); }
      if p: nat :| p < n - 1 && t.At(p, k) { assert p < n; }
    }
  }

  lemma PresentIsUsed(t: Table, k: int)
    requires t.Shaped()
    ensures k in UsedKeys(t, |t.status|) <==> t.Present(k)
  {
    UsedKeysPresent(t, |t.status|, k);
    if p: nat :| t.At(p, k) { assert p < |t.status|; }
  }

  lemma UniqueKeysDistinct(t: Table)
    requires t.Shaped() && t.Unique()
    ensures DistinctKeys(UsedKeys(t, |t.status|))
  {
    UniqueRepresents(t);
    KeysVisitedOnce(t, PrefixMap(t, |t.status|), |t.status|);
  }

  lemma UniqueRepresents(t: Table)
    requires t.Shaped() && t.Unique()
    ensures Represents(t, PrefixMap(t, |t.status|))
  {
    forall k ensures k in PrefixMap(t, |t.status|) <==> t.Present(k) {
      PrefixMapKeys(t, |t.status|, k);
      if p: nat :| t.At(p, k) { assert p < |t.status|; }
    }
    forall p: nat, k | t.At(p, k) && k in PrefixMap(t, |t.status|) ensures t.values[p] == PrefixMap(t, |t.status|)[k] {
      PrefixMapAt(t, |t.status|, p, k);
    }
  }

  lemma {:induction false} PrefixMapAt(t: Table, n: nat, p: nat, k: int)
    requires t.Shaped() && t.Unique() && p < n <= |t.status| && t.At(p, k)
    ensures k in PrefixMap(t, n) && PrefixMap(t, n)[k] == t.values[p]
  {
    if p < n - 1 {
      PrefixMapAt(t, n - 1, p, k);
      if t.status[n - 1] == Used { assert t.At(n - 1, t.keys[n - 1]); }
    }
  }

  // A run that stores a key twice

  /** A new table. */
  function Unused(hashfunc: int -> int): Table {
    Table(seq(DEFAULT_SIZE, _ => 0), seq(DEFAULT_SIZE, _ => 0), seq(DEFAULT_SIZE, _ => Empty), hashfunc)
  }

  /** Storing stops at the first slot that is not in use or holds the key. */
  lemma StopsAt(t: Table, u: Table, k: int, v: int, j: nat)
    requires PlacedIn(t, u, k, v) && j < |t.status| && t.status[t.Slot(k, j)] != Used
    requires forall h: nat | h < j :: t.status[t.Slot(k, h)] == Used && !t.At(t.Slot(k, h), k)
    ensures u == Store(t, t.Slot(k, j), k, v)
  {
    hide Table.Slot, Store;
    var i: nat :| PlacedAt(t, u, k, v, i);
    assert i == j;
  }

  function AfterFirst(): Table {
    Store(Unused(Itself()), 0, 0, 5)
  }

  function AfterSecond(): Table {
    Store(AfterFirst(), 1, 16, 1)
  }

  lemma FirstPut(u: Table)
    requires PlacedIn(Unused(Itself()), u, 0, 5)
    ensures u == AfterFirst()
  {
    hide PlacedIn;
    StopsAt(Unused(Itself()), u, 0, 5, 0);
  }

  lemma SecondPut(u: Table)
    requires PlacedIn(AfterFirst(), u, 16, 1)
    ensures u == AfterSecond()
  {
    hide PlacedIn;
    var t := AfterFirst();
    assert t.Slot(16, 0) == 0 && t.Slot(16, 1) == 1;
    assert t.status[0] == Used && t.keys[0] == 0 && t.status[1] == Empty;
    StopsAt(t, u, 16, 1, 1);
  }

  lemma ThenDeleted(u: Table)
    requires var t := AfterSecond(); t.Present(0) ==> exists i: nat :: FirstAt(t, 0, i) && u == Bury(t, t.Slot(0, i))
    ensures u == AfterDelete()
  {
    var t := AfterSecond();
    assert t.At(0, 0);
    var i: nat :| FirstAt(t, 0, i) && u == Bury(t, t.Slot(0, i));
    assert t.Slot(0, i) == 0;
    assert u.keys == AfterDelete().keys && u.values == AfterDelete().values && u.status == AfterDelete().status;
  }

  /** Few slots are taken: no rehash is due. */
  ghost predicate Roomy(t: Table) {
    |t.status| == DEFAULT_SIZE && NonEmpty(t.status) <= 2
  }

  lemma AllRoomy()
    ensures Roomy(Unused(Itself())) && Roomy(AfterFirst()) && Roomy(AfterSecond()) && Roomy(AfterDelete())
  {
    hide NonEmpty, Store, Bury, Unused, AfterDelete;
    UnusedStatus();
    CountNone(Unused(Itself()).status);
    StoreCounts(Unused(Itself()), 0, 0, 5);
    StoreCounts(AfterFirst(), 1, 16, 1);
    CountUpdate(AfterSecond().status, 0, Tombstone);
    DeletedStatus();
  }

  lemma UnusedStatus()
    ensures var t := Unused(Itself()); |t.keys| == |t.values| == |t.status| == DEFAULT_SIZE
    ensures forall i | 0 <= i < DEFAULT_SIZE :: Unused(Itself()).status[i] == Empty
  {
  }

  lemma StoreCounts(t: Table, i: nat, k: int, v: int)
    requires i < |t.status| == |t.keys| == |t.values| && t.status[i] == Empty
    ensures var u := Store(t, i, k, v);
      |u.keys| == |u.values| == |u.status| == |t.status| && NonEmpty(u.status) == NonEmpty(t.status) + 1
      && u.status == t.status[i := Used]
  {
    hide NonEmpty;
    CountUpdate(t.status, i, Used);
  }

  lemma DeletedStatus()
    ensures AfterDelete().status == AfterSecond().status[0 := Tombstone] && AfterSecond().status[0] == Used
  {
    assert AfterSecond().status[0 := Tombstone] == AfterDelete().status;
  }

  /** A put into a table with room. */
  method PutRoomy(m: LongMap, key: int, value: int, ghost t: Table)
    requires m.Valid() && m.View() == t && Roomy(t)
    modifies m, m.keys, m.values, m.status
    ensures m.Valid() && PlacedIn(t, m.View(), key, value) && PutInMap(t, m.View(), key, value, Shadowed(t, key))
    ensures m.Arrays() == old(m.Arrays()) || fresh(m.Arrays())
  {
    hide PlacedIn, PutInMap, Shadowed, NonEmpty, InUse, Table.Probed;
    assert !m.NeedsRehash();
    m.Put(key, value);
  }

  /** Put 0, put 16, delete 0: a new table comes to the state of the counterexample, and putting 16 again stores it
      twice. */
  method PutBehindTombstone() returns (m: LongMap, ghost t: Table)
    ensures fresh(m) && m.Valid() && t == AfterDelete() && Represents(t, map[16 := 1]) && !m.View().Unique()
  {
    hide Represents, Table.Unique, Store, Bury, Unused, AfterDelete, AfterFirst, AfterSecond, PlacedIn, FirstAt, Roomy;
    hide Table.Present, Shadowed, NonEmpty, InUse, Table.Probed;
    AllRoomy();
    m := new LongMap(Itself());
    PutRoomy(m, 0, 5, Unused(Itself()));
    FirstPut(m.View());
    PutRoomy(m, 16, 1, AfterFirst());
    SecondPut(m.View());
    m.Delete(0);
    ThenDeleted(m.View());
    t := AfterDelete();
    StoredTwice();
    PutRoomy(m, 16, 2, t);
  }
}
