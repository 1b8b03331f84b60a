/** The parameter allocator, over any list of parameters (functions.c:1471-1712). */
module ParamAllocator {
  import opened ParamTypes
  import opened ParamAllocation

  class Allocator {
    var intCount: nat
    var sseCount: nat
    var biggest: nat
    var offset: nat
    var padding: int
    var size: int
    var locations: seq<seq<Location>>

    constructor ()
      ensures View() == State(0, 0, 0, 0) && padding == size == 0 && locations == []
    {
      intCount, sseCount, biggest, offset, padding, size, locations := 0, 0, 0, 0, 0, 0, [];
    }

    ghost function View(): State
      reads this
    {
      State(intCount, sseCount, biggest, offset)
    }

    /** Give a type a register of its class, or a place on the stack. */
    method AddTypeToAllocation(t: Type) returns (l: Location)
      modifies this`intCount, this`sseCount, this`biggest, this`offset
      ensures View() == StateAfter(old(View()), t) && l == LocationFor(old(View()), t)
      ensures Places(old(View()), t, l, View())
    {
      hide RoundUp, AlignOf, SizeOf, Places;
      EachTypePlaced(View(), t);
      var d := Decay(t);
      var isInt, isSse := FitsInt(d), IsSse(d);
      var inStack := d.LongDouble? || (isInt && intCount >= INT_REGISTERS) || (isSse && sseCount >= SSE_REGISTERS);
      var alignment := StackAlignment(d);
      if !inStack && isInt {
        l := Location(intCount, -1, -1, -1, 0, 0, 0, 0);
      } else if !inStack && isSse {
        l := Location(-1, sseCount, -1, -1, 0, 0, 0, 0);
      } else {
        if alignment > biggest { biggest := alignment; }
        var pad := RoundUp(offset, alignment) - offset;
        PadIsPositive(offset, d);
        offset := offset + pad;
        l := Location(-1, -1, offset, pad, 0, 0, StackBytes(d), alignment);
        offset := offset + StackBytes(d);
      }
      if isInt { intCount := intCount + 1; }
      if !inStack && isSse { sseCount := sseCount + 1; }
    }

    method AddSingle(t: Type)
      modifies this`intCount, this`sseCount, this`biggest, this`offset, this`locations
      ensures View() == StateAfter(old(View()), t) && locations == old(locations) + [[LocationFor(old(View()), t)]]
    {
      var l := AddTypeToAllocation(t);
      locations := locations + [[l]];
    }

    /** Give every eightbyte of a struct a location of its own. */
    method AddEightBytes(scalars: seq<Scalar>, seenInteger: set<nat>, total: nat,
                         count: nat) returns (ls: seq<Location>, onStack: bool)
      requires forall i: nat :: i in seenInteger <==> HasInteger(scalars, |scalars|, i)
      requires total == TotalSize(scalars, |scalars|)
      modifies this`intCount, this`sseCount, this`biggest, this`offset
      ensures View() == EightByteState(old(View()), scalars, count)
        && ls == EightByteLocations(old(View()), scalars, count)
      ensures onStack == AnyOnStack(ls, count)
    {
      hide HasInteger, TotalSize, StateAfter, LocationFor;
      ls, onStack := [], false;
      var left: int := total;
      ghost var s := View();
      for i := 0 to count
        invariant View() == EightByteState(s, scalars, i) && ls == EightByteLocations(s, scalars, i)
        invariant left == total - 8 * i && onStack == AnyOnStack(ls, i)
      {
        ghost var was := ls;
        var l := AddTypeToAllocation(if i in seenInteger then Int else Float);
        l := l.(struOffset := i * 8, struSize := if left > 8 then 8 else left);
        left := left - 8;
        ls := ls + [l];
        AnyPrefix(ls, was, i);
        onStack := onStack || l.stackOffset != -1;
      }
    }

    /** One more parameter. A struct whose eightbytes do not all find a register is taken back and put on the stack. */
    method AddFunctionParam(t: Type)
      modifies this`intCount, this`sseCount, this`biggest, this`offset, this`locations
      ensures View() == ParamState(old(View()), t) && locations == old(locations) + [ParamLocations(old(View()), t)]
    {
      hide HasInteger, HasMemory, InMemory, Unaligned, TotalSize, StateAfter, LocationFor, EightByteState;
      hide EightByteLocations, AnyOnStack;
      if !t.Struct? || t.size > 16 {
        AddSingle(t);
        return;
      }
      var scalars := Flatten(t, 0);
      var total, seenInteger, memory, unaligned := Classify(scalars);
      var count := (total + 7) / 8;
      var inMemory := MemoryBelow(scalars, memory, count);
      if inMemory || unaligned {
        AddSingle(t);
        return;
      }
      var backup := (intCount, sseCount, biggest, offset);
      var ls, onStack := AddEightBytes(scalars, seenInteger, total, count);
      if onStack && count > 1 {
        intCount, sseCount, biggest, offset := backup.0, backup.1, backup.2, backup.3;
        AddSingle(t);
      } else {
        locations := locations + [ls];
      }
    }

    /** The total size, padded to the largest alignment on the stack. */
    method Finalize()
      requires (biggest == 0 || biggest == 8 || biggest == 16) && (biggest == 0 ==> offset == 0)
      modifies this`padding, this`size
      ensures size == offset + padding == RoundUp(offset, biggest)
      ensures if biggest == 0 then size == 0 else offset <= size < offset + biggest && size % biggest == 0
    {
      if biggest != 0 { RoundUpFits(offset, biggest); }
      padding := RoundUp(offset, biggest) - offset;
      size := offset + padding;
    }
  }

  lemma PadIsPositive(offset: nat, t: Type)
    ensures RoundUp(offset, StackAlignment(t)) >= offset
  {
    StackAlignmentIs(t);
    RoundUpFits(offset, StackAlignment(t));
  }

  /** Go through the scalars once: their total size, the eightbytes with integers, those in memory, and misalignment. */
  method Classify(scalars: seq<Scalar>) returns (total: nat, seenInteger: set<nat>, seenMemory: set<nat>,
                  unaligned: bool)
    ensures total == TotalSize(scalars, |scalars|) && (unaligned <==> Unaligned(scalars, |scalars|))
    ensures forall i: nat :: i in seenInteger <==> HasInteger(scalars, |scalars|, i)
    ensures forall i: nat :: i in seenMemory <==> HasMemory(scalars, |scalars|, i)
  {
    total, seenInteger, seenMemory, unaligned := 0, {}, {}, false;
    for k := 0 to |scalars|
      invariant total == TotalSize(scalars, k) && (unaligned <==> Unaligned(scalars, k))
      invariant forall i: nat :: i in seenInteger <==> HasInteger(scalars, k, i)
      invariant forall i: nat :: i in seenMemory <==> HasMemory(scalars, k, i)
    {
      var s := scalars[k];
      total := total + SizeOf(s.t);
      if FitsInt(s.t) {
        seenInteger := seenInteger + {EightByte(s)};
      } else if !IsSse(s.t) {
        seenMemory := seenMemory + {EightByte(s), EightByte(s) + 1};
      }
      if Misplaced(s) { unaligned := true; }
    }
  }

  method MemoryBelow(scalars: seq<Scalar>, seenMemory: set<nat>, count: nat) returns (inMemory: bool)
    requires forall i: nat :: i in seenMemory <==> HasMemory(scalars, |scalars|, i)
    ensures inMemory == InMemory(scalars, count)
  {
    inMemory := false;
    for i := 0 to count
      invariant inMemory == InMemory(scalars, i)
    {
      inMemory := inMemory || i in seenMemory;
    }
  }

  // Whole lists

  /** The state after the first `n` parameters, and all their locations in order. */
  ghost function StateOf(ts: seq<Type>, n: nat): State
    requires n <= |ts|
  {
    if n == 0 then State(0, 0, 0, 0) else ParamState(StateOf(ts, n - 1), ts[n - 1])
  }

  ghost function LocationsOf(ts: seq<Type>, n: nat): seq<Location>
    requires n <= |ts|
  {
    if n == 0 then [] else LocationsOf(ts, n - 1) + ParamLocations(StateOf(ts, n - 1), ts[n - 1])
  }

  lemma {:induction false} AllocationsAreSound(ts: seq<Type>, n: nat)
    requires n <= |ts|
    ensures Sound(StateOf(ts, n), LocationsOf(ts, n))
  {
    hide ParamState, ParamLocations;
    if n > 0 {
      AllocationsAreSound(ts, n - 1);
      AddParam(StateOf(ts, n - 1), LocationsOf(ts, n - 1), ts[n - 1]);
    }
  }

  lemma WholePlaced(ts: seq<Type>, i: nat)
    requires i < |ts| && (!ts[i].Struct? || WholeOnStack(StateOf(ts, i), ts[i]))
    ensures var ls := ParamLocations(StateOf(ts, i), ts[i]);
      |ls| == 1 && Places(StateOf(ts, i), ts[i], ls[0], StateOf(ts, i + 1))
  {
    hide LocationFor, StateAfter, WholeOnStack, Places;
    EachTypePlaced(StateOf(ts, i), ts[i]);
  }

  /** Every parameter that is not taken apart is where its type goes. */
  ghost predicate AllPlaced(ts: seq<Type>, locations: seq<seq<Location>>)
    requires |locations| == |ts|
  {
    forall i | 0 <= i < |ts| && (!ts[i].Struct? || WholeOnStack(StateOf(ts, i), ts[i])) ::
      |locations[i]| == 1 && Places(StateOf(ts, i), ts[i], locations[i][0], StateOf(ts, i + 1))
  }

  lemma WholesPlaced(ts: seq<Type>, locations: seq<seq<Location>>)
    requires |locations| == |ts| && forall i | 0 <= i < |ts| :: locations[i] == ParamLocations(StateOf(ts, i), ts[i])
    ensures AllPlaced(ts, locations)
  {
    hide ParamLocations, WholeOnStack, Places, StateOf;
    forall i | 0 <= i < |ts| && (!ts[i].Struct? || WholeOnStack(StateOf(ts, i), ts[i]))
      ensures |locations[i]| == 1 && Places(StateOf(ts, i), ts[i], locations[i][0], StateOf(ts, i + 1))
    {
      WholePlaced(ts, i);
    }
  }

  /** Allocate all parameters and find the size of the stack part. No two locations share a register, those on the
      stack are on their boundaries, apart, and within the size, and the size is a multiple of every alignment. */
  method AllocateParams(ts: seq<Type>) returns (a: Allocator)
    ensures fresh(a) && |a.locations| == |ts|
    ensures forall i | 0 <= i < |ts| :: a.locations[i] == ParamLocations(StateOf(ts, i), ts[i])
    ensures AllPlaced(ts, a.locations)
    ensures Sound(a.View(), LocationsOf(ts, |ts|)) && a.View() == StateOf(ts, |ts|)
    ensures forall i | 0 <= i < |LocationsOf(ts, |ts|)| :: WithinSize(LocationsOf(ts, |ts|)[i], a.size)
    ensures a.size == a.offset + a.padding && a.padding >= 0
    ensures if a.biggest == 0 then a.size == 0 else a.size < a.offset + a.biggest && a.size % a.biggest == 0
  {
    hide ParamState, ParamLocations, Sound, RoundUp, AllPlaced;
    a := new Allocator();
    for n := 0 to |ts|
      invariant fresh(a) && a.View() == StateOf(ts, n) && |a.locations| == n
      invariant forall i | 0 <= i < n :: a.locations[i] == ParamLocations(StateOf(ts, i), ts[i])
    {
      a.AddFunctionParam(ts[n]);
    }
    AllocationsAreSound(ts, |ts|);
    SoundCounters(a.View(), LocationsOf(ts, |ts|));
    WholesPlaced(ts, a.locations);
    a.Finalize();
    SizeFits(a.View(), LocationsOf(ts, |ts|), a.size);
  }

  /** On the stack below `size`, and `size` is a multiple of the alignment. */
  ghost predicate WithinSize(l: Location, size: int) {
    l.stackOffset != -1 ==> l.alignment > 0 && l.stackOffset + l.bytes <= size && size % l.alignment == 0
  }

  lemma SoundCounters(s: State, ls: seq<Location>)
    requires Sound(s, ls)
    ensures (s.biggest == 0 || s.biggest == 8 || s.biggest == 16) && (s.biggest == 0 ==> s.offset == 0)
    ensures RoundUp(s.offset, s.biggest) >= s.offset
  {
    if s.biggest != 0 { RoundUpFits(s.offset, s.biggest); }
  }

  lemma SizeFits(s: State, ls: seq<Location>, size: int)
    requires Sound(s, ls) && size == RoundUp(s.offset, s.biggest)
    ensures forall i | 0 <= i < |ls| :: WithinSize(ls[i], size)
  {
    hide RoundUp;
    if s.biggest != 0 { RoundUpFits(s.offset, s.biggest); }
    forall i | 0 <= i < |ls| ensures WithinSize(ls[i], size) {
      assert LocationOk(s, ls[i]);
      if ls[i].stackOffset != -1 && ls[i].alignment == 8 { MultipleOf8(size, s.biggest); }
    }
  }

  lemma MultipleOf8(size: int, biggest: nat)
    requires (biggest == 8 || biggest == 16) && size % biggest == 0
    ensures size % 8 == 0
  {
  }

  // Are all scalars covered?

  /** Every scalar lies in one of the eightbytes that are given locations. */
  ghost predicate Covered(scalars: seq<Scalar>) {
    forall k | 0 <= k < |scalars| :: EightByte(scalars[k]) < EightByteCount(scalars)
  }

  lemma {:induction false} TotalPositive(scalars: seq<Scalar>, n: nat)
    requires n <= |scalars| && forall k | 0 <= k < |scalars| :: SizeOf(scalars[k].t) > 0
    ensures TotalSize(scalars, n) >= n
  {
    hide SizeOf;
    if n > 0 { TotalPositive(scalars, n - 1); }
  }

  /** The count of eightbytes comes from the sum of the sizes of the scalars. It covers all scalars of a struct of at
      most 16 bytes exactly if the sum exceeds 8 or no scalar starts at 8 or later. */
  lemma CoveredExactly(t: Type)
    requires t.Struct? && t.size <= 16 && Laid(t) && forall s | s in Flatten(t, 0) :: SizeOf(s.t) > 0
    ensures var scalars := Flatten(t, 0);
      Covered(scalars) <==> TotalSize(scalars, |scalars|) > 8 || forall k | 0 <= k < |scalars| :: scalars[k].offset < 8
  {
    hide Flatten, SizeOf;
    var scalars := Flatten(t, 0);
    ScalarsInside(t, 0);
    forall k | 0 <= k < |scalars| ensures scalars[k].offset < 16 && SizeOf(scalars[k].t) > 0 {
      assert scalars[k] in scalars;
      SizeOfStruct(t);
    }
    TotalPositive(scalars, |scalars|);
  }

  /** Some scalar lies in eightbyte `i`. */
  ghost predicate Occupied(scalars: seq<Scalar>, i: nat) {
    exists k :: 0 <= k < |scalars| && EightByte(scalars[k]) == i
  }

  /** Every eightbyte that is given a location holds a scalar. */
  ghost predicate Filled(scalars: seq<Scalar>) {
    forall i: nat | i < EightByteCount(scalars) :: Occupied(scalars, i)
  }

  ghost predicate StartsBelow8(scalars: seq<Scalar>) {
    exists k :: 0 <= k < |scalars| && scalars[k].offset < 8
  }

  ghost predicate StartsFrom8(scalars: seq<Scalar>) {
    exists k :: 0 <= k < |scalars| && scalars[k].offset >= 8
  }

  /** The other way round: in a struct of at most 16 bytes every eightbyte that is counted holds a scalar exactly if
      the sizes add up to at most 16, some scalar starts below 8, and, if the sizes add up to more than 8, some
      scalar starts at 8 or later. */
  lemma FilledExactly(t: Type)
    requires t.Struct? && t.size <= 16 && Laid(t) && forall s | s in Flatten(t, 0) :: SizeOf(s.t) > 0
    ensures var scalars := Flatten(t, 0); var total := TotalSize(scalars, |scalars|);
      Filled(scalars) <==>
        total <= 16 && (|scalars| > 0 ==> StartsBelow8(scalars)) && (total > 8 ==> StartsFrom8(scalars))
  {
    hide Flatten, SizeOf, Occupied, StartsBelow8, StartsFrom8;
    var scalars := Flatten(t, 0);
    ScalarsInside(t, 0);
    forall k | 0 <= k < |scalars| ensures scalars[k].offset < 16 && SizeOf(scalars[k].t) > 0 {
      assert scalars[k] in scalars;
      SizeOfStruct(t);
    }
    TotalPositive(scalars, |scalars|);
    HalvesOccupied(scalars);
  }

  lemma HalvesOccupied(scalars: seq<Scalar>)
    requires forall k | 0 <= k < |scalars| :: scalars[k].offset < 16
    ensures Occupied(scalars, 0) <==> StartsBelow8(scalars)
    ensures Occupied(scalars, 1) <==> StartsFrom8(scalars)
    ensures !Occupied(scalars, 2)
    ensures scalars == [] ==> TotalSize(scalars, |scalars|) == 0
  {
    if k :| 0 <= k < |scalars| && scalars[k].offset < 8 { assert EightByte(scalars[k]) == 0; }
    if k :| 0 <= k < |scalars| && scalars[k].offset >= 8 { assert EightByte(scalars[k]) == 1; }
  }

  /** An eightbyte without a scalar takes up an SSE register where the struct is passed in registers. */
  lemma EmptyTakesSseRegister(s: State, t: Type, i: nat)
    requires t.Struct? && !WholeOnStack(s, t) && 1 < EightByteCount(Flatten(t, 0))
    requires i < EightByteCount(Flatten(t, 0)) && !Occupied(Flatten(t, 0), i)
    ensures i < |ParamLocations(s, t)| && ParamLocations(s, t)[i].sseRegister != -1
  {
    hide Flatten, EightByteState, LocationFor;
    var scalars := Flatten(t, 0);
    var n := EightByteCount(scalars);
    StructsAreWhole(s, t);
    NoIntegerThere(scalars, |scalars|, i);
    EightByteIs(s, scalars, n, i);
    FloatsAvoidIntegers(EightByteState(s, scalars, i));
  }

  lemma {:induction false} NoIntegerThere(scalars: seq<Scalar>, n: nat, i: nat)
    requires n <= |scalars| && !Occupied(scalars, i)
    ensures !HasInteger(scalars, n, i)
  {
    if n > 0 { NoIntegerThere(scalars, n - 1, i); }
  }

  lemma FloatsAvoidIntegers(s: State)
    ensures var l := LocationFor(s, Float); l.stackOffset == -1 ==> l.sseRegister != -1
  {
  }

  lemma SizeOfStruct(t: Type)
    requires t.Struct?
    ensures SizeOf(t) == t.size
  {
  }

  /** struct { char; int; char; }: the sizes add up to 6, so there is one eightbyte, and the last char is outside of
      it. */
  lemma PaddedStructIsNotCovered()
    ensures var t := Struct([Member(0, Char), Member(4, Int), Member(8, Char)], 12);
      Laid(t) && EightByteCount(Flatten(t, 0)) == 1 && !Covered(Flatten(t, 0))
  {
    var t := Struct([Member(0, Char), Member(4, Int), Member(8, Char)], 12);
    assert FlattenMembers(t, 1, 0) == [Scalar(Char, 0)];
    assert FlattenMembers(t, 2, 0) == [Scalar(Char, 0), Scalar(Int, 4)];
    var scalars := [Scalar(Char, 0), Scalar(Int, 4), Scalar(Char, 8)];
    assert Flatten(t, 0) == FlattenMembers(t, 3, 0) == scalars;
    assert TotalSize(scalars, 1) == 1 && TotalSize(scalars, 2) == 5 && TotalSize(scalars, 3) == 6;
    assert EightByte(scalars[2]) == 1;
  }

  /** union { long; double; }: the sizes add up to 16, so there is a second eightbyte, which holds nothing. */
  lemma UnionHasEmptyEightByte()
    ensures var t := Struct([Member(0, Long), Member(0, Double)], 8);
      Laid(t) && EightByteCount(Flatten(t, 0)) == 2 && !Occupied(Flatten(t, 0), 1) && !Filled(Flatten(t, 0))
  {
    var t := Struct([Member(0, Long), Member(0, Double)], 8);
    assert FlattenMembers(t, 1, 0) == [Scalar(Long, 0)];
    var scalars := [Scalar(Long, 0), Scalar(Double, 0)];
    assert Flatten(t, 0) == FlattenMembers(t, 2, 0) == scalars;
    assert TotalSize(scalars, 1) == 8 && TotalSize(scalars, 2) == 16;
  }
}
