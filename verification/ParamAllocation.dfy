/** Where parameters go: registers and stack offsets (functions.c:1497-1550, 1579-1712). */
module ParamAllocation {
  import opened ParamTypes

  const INT_REGISTERS: nat := 6
  const SSE_REGISTERS: nat := 8

  /** Where one eightbyte or one whole parameter goes. One of the first three is not -1. `bytes` and `alignment` say
      how much of the stack it takes and on what boundary; they are 0 for registers. */
  datatype Location = Location(intRegister: int, sseRegister: int, stackOffset: int, stackPadding: int,
                               struOffset: nat, struSize: int, bytes: nat, alignment: nat)

  /** The counters of the allocator. */
  datatype State = State(intCount: nat, sseCount: nat, biggest: nat, offset: nat)

  /** The next multiple of an alignment; an alignment of 0 stands for an empty stack. */
  function RoundUp(x: nat, alignment: nat): nat {
    if alignment == 16 then (x + 15) / 16 * 16 else if alignment == 8 then (x + 7) / 8 * 8 else 0
  }

  lemma RoundUpFits(x: nat, alignment: nat)
    requires alignment == 8 || alignment == 16
    ensures x <= RoundUp(x, alignment) < x + alignment && RoundUp(x, alignment) % alignment == 0
  {
    if alignment == 8 { RoundTo8(x); } else { RoundTo16(x); }
  }

  lemma RoundTo8(x: nat)
    ensures x <= (x + 7) / 8 * 8 < x + 8 && (x + 7) / 8 * 8 % 8 == 0
  {
    var q := (x + 7) / 8;
    assert x + 7 == 8 * q + (x + 7) % 8;
  }

  lemma RoundTo16(x: nat)
    ensures x <= (x + 15) / 16 * 16 < x + 16 && (x + 15) / 16 * 16 % 16 == 0
  {
    var q := (x + 15) / 16;
    assert x + 15 == 16 * q + (x + 15) % 16;
  }

  function StackAlignment(t: Type): nat {
    if AlignOf(t) < 8 then 8 else AlignOf(t)
  }

  lemma StackAlignmentIs(t: Type)
    ensures StackAlignment(t) == 8 || StackAlignment(t) == 16
  {
    AlignmentsArePowers(t);
  }

  function StackBytes(t: Type): nat {
    if SizeOf(t) < 8 then 8 else SizeOf(t)
  }

  function Decay(t: Type): Type {
    if t.Array? then Ptr else if t.Enum? then Int else t
  }

  /** No register is left for the type, or it never gets one. */
  predicate OnStack(s: State, t: Type) {
    var d := Decay(t);
    !(FitsInt(d) && s.intCount < INT_REGISTERS) && !(IsSse(d) && s.sseCount < SSE_REGISTERS)
  }

  // One location

  function StackLocation(s: State, t: Type): Location {
    var at := RoundUp(s.offset, StackAlignment(t));
    Location(-1, -1, at, at - s.offset, 0, 0, StackBytes(t), StackAlignment(t))
  }

  function LocationFor(s: State, t: Type): Location {
    var d := Decay(t);
    if OnStack(s, t) then StackLocation(s, d)
    else if FitsInt(d) then Location(s.intCount, -1, -1, -1, 0, 0, 0, 0)
    else Location(-1, s.sseCount, -1, -1, 0, 0, 0, 0)
  }

  function StateAfter(s: State, t: Type): State {
    var d := Decay(t);
    var pushed := if OnStack(s, t) then
        State(s.intCount, s.sseCount, if StackAlignment(d) > s.biggest then StackAlignment(d) else s.biggest,
              RoundUp(s.offset, StackAlignment(d)) + StackBytes(d))
      else s;
    pushed.(intCount := if FitsInt(d) then s.intCount + 1 else s.intCount,
            sseCount := if IsSse(d) && !OnStack(s, t) then s.sseCount + 1 else s.sseCount)
  }

  // Structs

  function EightByte(s: Scalar): nat {
    s.offset / 8
  }

  function TotalSize(scalars: seq<Scalar>, n: nat): nat
    requires n <= |scalars|
  {
    if n == 0 then 0 else TotalSize(scalars, n - 1) + SizeOf(scalars[n - 1].t)
  }

  /** One of the first `n` scalars is in eightbyte `i` and fits an integer register. */
  predicate HasInteger(scalars: seq<Scalar>, n: nat, i: nat)
    requires n <= |scalars|
  {
    n > 0 && ((EightByte(scalars[n - 1]) == i && FitsInt(scalars[n - 1].t)) || HasInteger(scalars, n - 1, i))
  }

  /** A scalar that fits no register puts its eightbyte and the next one in memory. */
  predicate HasMemory(scalars: seq<Scalar>, n: nat, i: nat)
    requires n <= |scalars|
  {
    n > 0 && ((ForMemory(scalars[n - 1]) && (EightByte(scalars[n - 1]) == i || EightByte(scalars[n - 1]) + 1 == i))
              || HasMemory(scalars, n - 1, i))
  }

  predicate ForMemory(s: Scalar) {
    !FitsInt(s.t) && !IsSse(s.t)
  }

  predicate Unaligned(scalars: seq<Scalar>, n: nat)
    requires n <= |scalars|
  {
    n > 0 && (Misplaced(scalars[n - 1]) || Unaligned(scalars, n - 1))
  }

  predicate Misplaced(s: Scalar) {
    AlignOf(s.t) > 1 && s.offset % AlignOf(s.t) != 0
  }

  /** The number of eightbytes, from the sizes of the scalars. */
  function EightByteCount(scalars: seq<Scalar>): nat {
    (TotalSize(scalars, |scalars|) + 7) / 8
  }

  predicate InMemory(scalars: seq<Scalar>, count: nat) {
    count > 0 && (HasMemory(scalars, |scalars|, count - 1) || InMemory(scalars, count - 1))
  }

  function EightByteType(scalars: seq<Scalar>, i: nat): Type {
    if HasInteger(scalars, |scalars|, i) then Int else Float
  }

  /** The state after the first `n` eightbytes, and their locations. */
  function EightByteState(s: State, scalars: seq<Scalar>, n: nat): State {
    if n == 0 then s else StateAfter(EightByteState(s, scalars, n - 1), EightByteType(scalars, n - 1))
  }

  function EightByteLocations(s: State, scalars: seq<Scalar>, n: nat): (r: seq<Location>)
    ensures |r| == n
  {
    if n == 0 then []
    else
      var left := TotalSize(scalars, |scalars|) - 8 * (n - 1);
      var l := LocationFor(EightByteState(s, scalars, n - 1), EightByteType(scalars, n - 1));
      EightByteLocations(s, scalars, n - 1) + [l.(struOffset := (n - 1) * 8, struSize := if left > 8 then 8 else left)]
  }

  predicate AnyOnStack(ls: seq<Location>, n: nat)
    requires n <= |ls|
  {
    n > 0 && (ls[n - 1].stackOffset != -1 || AnyOnStack(ls, n - 1))
  }

  /** The struct goes to the stack as a whole. */
  predicate WholeOnStack(s: State, t: Type)
    requires t.Struct?
  {
    t.size > 16 ||
    var scalars := Flatten(t, 0);
    var n := EightByteCount(scalars);
    InMemory(scalars, n) || Unaligned(scalars, |scalars|) || (n > 1 && AnyOnStack(EightByteLocations(s, scalars, n), n))
  }

  /** The locations of one parameter, and the state after it. */
  function ParamLocations(s: State, t: Type): seq<Location> {
    if !t.Struct? || WholeOnStack(s, t) then [LocationFor(s, t)]
    else EightByteLocations(s, Flatten(t, 0), EightByteCount(Flatten(t, 0)))
  }

  function ParamState(s: State, t: Type): State {
    if !t.Struct? || WholeOnStack(s, t) then StateAfter(s, t)
    else EightByteState(s, Flatten(t, 0), EightByteCount(Flatten(t, 0)))
  }

  // What every allocation keeps

  ghost predicate InOnePlace(l: Location) {
    || (l.intRegister != -1 && l.sseRegister == -1 && l.stackOffset == -1)
    || (l.intRegister == -1 && l.sseRegister != -1 && l.stackOffset == -1)
    || (l.intRegister == -1 && l.sseRegister == -1 && l.stackOffset != -1)
  }

  /** Registers below the counters, or a place on the stack on its boundary and below the offset. */
  ghost predicate LocationOk(s: State, l: Location) {
    && InOnePlace(l)
    && (l.intRegister != -1 ==> 0 <= l.intRegister < INT_REGISTERS && l.intRegister < s.intCount)
    && (l.sseRegister != -1 ==> 0 <= l.sseRegister < SSE_REGISTERS && l.sseRegister < s.sseCount)
    && (l.stackOffset != -1 ==>
          && 0 <= l.stackOffset && l.stackOffset + l.bytes <= s.offset && l.bytes >= 8
          && (l.alignment == 8 || l.alignment == 16) && l.alignment <= s.biggest && l.stackOffset % l.alignment == 0)
  }

  /** Different locations share no register, and the earlier one ends on the stack before the later one starts. */
  ghost predicate Apart(l: Location, m: Location) {
    && (l.intRegister != -1 ==> l.intRegister != m.intRegister)
    && (l.sseRegister != -1 ==> l.sseRegister != m.sseRegister)
    && (l.stackOffset != -1 && m.stackOffset != -1 ==> l.stackOffset + l.bytes <= m.stackOffset)
  }

  ghost predicate Sound(s: State, ls: seq<Location>) {
    && (s.biggest == 0 || s.biggest == 8 || s.biggest == 16) && (s.biggest == 0 ==> s.offset == 0)
    && s.sseCount <= SSE_REGISTERS
    && (forall i | 0 <= i < |ls| :: LocationOk(s, ls[i]))
    && (forall i, j | 0 <= i < j < |ls| :: Apart(ls[i], ls[j]))
  }

  /** One more location keeps everything apart. */
  lemma AddLocation(s: State, ls: seq<Location>, t: Type)
    requires Sound(s, ls)
    ensures Sound(StateAfter(s, t), ls + [LocationFor(s, t)])
  {
    var d := Decay(t);
    StackAlignmentIs(d);
    RoundUpFits(s.offset, StackAlignment(d));
    hide RoundUp, AlignOf, SizeOf;
    var u, l := StateAfter(s, t), LocationFor(s, t);
    var all := ls + [l];
    forall i | 0 <= i < |all| ensures LocationOk(u, all[i]) {
      if i < |ls| { assert LocationOk(s, ls[i]); }
    }
    forall i, j | 0 <= i < j < |all| ensures Apart(all[i], all[j]) {
      if j < |ls| { assert Apart(ls[i], ls[j]); } else { assert LocationOk(s, ls[i]); }
    }
  }

  lemma Relabeled(s: State, ls: seq<Location>, l: Location, m: Location)
    requires Sound(s, ls + [l]) && m == l.(struOffset := m.struOffset, struSize := m.struSize)
    ensures Sound(s, ls + [m])
  {
    var was, now := ls + [l], ls + [m];
    assert LocationOk(s, was[|ls|]);
    forall i | 0 <= i < |now| ensures LocationOk(s, now[i]) { assert LocationOk(s, was[i]); }
    forall i, j | 0 <= i < j < |now| ensures Apart(now[i], now[j]) { assert Apart(was[i], was[j]); }
  }

  lemma {:induction false} AddEightBytes(s: State, ls: seq<Location>, scalars: seq<Scalar>, n: nat)
    requires Sound(s, ls)
    ensures Sound(EightByteState(s, scalars, n), ls + EightByteLocations(s, scalars, n))
  {
    hide Sound, LocationFor, StateAfter;
    if n == 0 {
      assert ls + [] == ls;
    } else {
      AddEightBytes(s, ls, scalars, n - 1);
      var before, t := EightByteLocations(s, scalars, n - 1), EightByteType(scalars, n - 1);
      var u := EightByteState(s, scalars, n - 1);
      AddLocation(u, ls + before, t);
      var m := EightByteLocations(s, scalars, n)[n - 1];
      Relabeled(StateAfter(u, t), ls + before, LocationFor(u, t), m);
      assert ls + EightByteLocations(s, scalars, n) == (ls + before) + [m];
    }
  }

  /** One more parameter keeps everything apart. */
  lemma AddParam(s: State, ls: seq<Location>, t: Type)
    requires Sound(s, ls)
    ensures Sound(ParamState(s, t), ls + ParamLocations(s, t))
  {
    hide Sound, LocationFor, StateAfter, WholeOnStack;
    if !t.Struct? || WholeOnStack(s, t) {
      AddLocation(s, ls, t);
    } else {
      AddEightBytes(s, ls, Flatten(t, 0), EightByteCount(Flatten(t, 0)));
    }
  }

  // Structs are passed as a whole

  /** The registers of each class that the first `n` eightbytes want. */
  function IntsWanted(scalars: seq<Scalar>, n: nat): (r: nat)
    ensures r <= n
  {
    if n == 0 then 0 else IntsWanted(scalars, n - 1) + if HasInteger(scalars, |scalars|, n - 1) then 1 else 0
  }

  predicate RegistersSuffice(s: State, scalars: seq<Scalar>, n: nat) {
    var ints := IntsWanted(scalars, n);
    && (ints > 0 ==> s.intCount + ints <= INT_REGISTERS)
    && (ints < n ==> s.sseCount + (n - ints) <= SSE_REGISTERS)
  }

  /** The state after `n` eightbytes that all got registers. */
  function RegistersTaken(s: State, scalars: seq<Scalar>, n: nat): State {
    s.(intCount := s.intCount + IntsWanted(scalars, n), sseCount := s.sseCount + (n - IntsWanted(scalars, n)))
  }

  /** A location in a register of the class of eightbyte `i`. */
  predicate InRegister(scalars: seq<Scalar>, i: nat, l: Location) {
    l.stackOffset == -1 && l.struOffset == 8 * i && (l.intRegister != -1 <==> HasInteger(scalars, |scalars|, i))
  }

  lemma SufficedBefore(s: State, scalars: seq<Scalar>, n: nat)
    requires RegistersSuffice(s, scalars, n) && n > 0
    ensures RegistersSuffice(s, scalars, n - 1)
  {
    hide HasInteger;
  }

  lemma LastTakesRegister(s: State, scalars: seq<Scalar>, n: nat)
    requires RegistersSuffice(s, scalars, n) && n > 0
      && EightByteState(s, scalars, n - 1) == RegistersTaken(s, scalars, n - 1)
    ensures EightByteState(s, scalars, n) == RegistersTaken(s, scalars, n)
    ensures InRegister(scalars, n - 1, EightByteLocations(s, scalars, n)[n - 1])
  {
    hide HasInteger, TotalSize;
    assert EightByteState(s, scalars, n) ==
           StateAfter(EightByteState(s, scalars, n - 1), EightByteType(scalars, n - 1));
  }

  lemma LastLacksRegister(s: State, scalars: seq<Scalar>, n: nat)
    requires n > 0 && RegistersSuffice(s, scalars, n - 1) && !RegistersSuffice(s, scalars, n)
      && EightByteState(s, scalars, n - 1) == RegistersTaken(s, scalars, n - 1)
    ensures EightByteLocations(s, scalars, n)[n - 1].stackOffset != -1
  {
    hide HasInteger, TotalSize;
  }

  lemma EarlierLocations(s: State, scalars: seq<Scalar>, n: nat)
    requires n > 0
    ensures EightByteLocations(s, scalars, n)[..n - 1] == EightByteLocations(s, scalars, n - 1)
  {
    hide TotalSize, LocationFor, EightByteState;
  }

  /** While registers suffice, eightbytes get consecutive ones and the stack is not touched; as soon as they do not,
      some eightbyte is on the stack. */
  lemma {:induction false} EightBytesInRegisters(s: State, scalars: seq<Scalar>, n: nat)
    ensures RegistersSuffice(s, scalars, n) ==>
              && EightByteState(s, scalars, n) == RegistersTaken(s, scalars, n)
              && forall i: nat | i < n :: InRegister(scalars, i, EightByteLocations(s, scalars, n)[i])
    ensures !RegistersSuffice(s, scalars, n) ==> AnyOnStack(EightByteLocations(s, scalars, n), n)
  {
    if n > 0 {
      hide RegistersSuffice, RegistersTaken, EightByteState, EightByteLocations, InRegister;
      EightBytesInRegisters(s, scalars, n - 1);
      var ls, before := EightByteLocations(s, scalars, n), EightByteLocations(s, scalars, n - 1);
      EarlierLocations(s, scalars, n);
      assert forall i: nat | i < n - 1 :: ls[i] == before[i] by {
        assert forall i: nat | i < n - 1 :: ls[..n - 1][i] == ls[i];
      }
      AnyPrefix(ls, before, n - 1);
      if RegistersSuffice(s, scalars, n) {
        SufficedBefore(s, scalars, n);
        LastTakesRegister(s, scalars, n);
      } else if RegistersSuffice(s, scalars, n - 1) {
        LastLacksRegister(s, scalars, n);
      }
    }
  }

  lemma {:induction false} AnyPrefix(ls: seq<Location>, ms: seq<Location>, n: nat)
    requires n <= |ls| && n <= |ms| && forall i | 0 <= i < n :: ls[i] == ms[i]
    ensures AnyOnStack(ls, n) == AnyOnStack(ms, n)
  {
    if n > 0 { AnyPrefix(ls, ms, n - 1); }
  }

  lemma {:induction false} NoneOnStack(ls: seq<Location>, n: nat)
    requires n <= |ls| && forall i | 0 <= i < n :: ls[i].stackOffset == -1
    ensures !AnyOnStack(ls, n)
  {
    if n > 0 { NoneOnStack(ls, n - 1); }
  }

  /** All eightbytes of the struct are in registers, and only the register counters have changed. */
  ghost predicate InRegisters(s: State, t: Type)
    requires t.Struct?
  {
    var scalars := Flatten(t, 0);
    var n := EightByteCount(scalars);
    && |ParamLocations(s, t)| == n
    && (forall i | 0 <= i < n ::
        ParamLocations(s, t)[i].stackOffset == -1 && ParamLocations(s, t)[i].struOffset == 8 * i)
    && ParamState(s, t) == RegistersTaken(s, scalars, n)
  }

  /** A struct of several eightbytes is wholly in registers, which are then taken and nothing else changes, or wholly
      on the stack, and then the register counters are what they were before it. */
  lemma StructsAreWhole(s: State, t: Type)
    requires t.Struct?
    ensures var scalars := Flatten(t, 0); var n := EightByteCount(scalars);
      WholeOnStack(s, t) <==>
        t.size > 16 || InMemory(scalars, n) || Unaligned(scalars, |scalars|)
          || (n > 1 && !RegistersSuffice(s, scalars, n))
    ensures WholeOnStack(s, t) ==> |ParamLocations(s, t)| == 1 && ParamLocations(s, t)[0].stackOffset != -1
    ensures WholeOnStack(s, t) ==> ParamState(s, t).intCount == s.intCount && ParamState(s, t).sseCount == s.sseCount
    ensures !WholeOnStack(s, t) && EightByteCount(Flatten(t, 0)) > 1 ==> InRegisters(s, t)
  {
    hide InMemory, Unaligned, RegistersSuffice, TotalSize, HasInteger, RoundUp;
    var scalars := Flatten(t, 0);
    var n := EightByteCount(scalars);
    EightBytesInRegisters(s, scalars, n);
    if RegistersSuffice(s, scalars, n) { NoneOnStack(EightByteLocations(s, scalars, n), n); }
  }

  // Where each type goes

  /** At the next multiple of `alignment` on the stack, with `size` bytes, and `ints` integer registers counted. */
  ghost predicate NextOnStack(s: State, l: Location, u: State, size: nat, alignment: nat, ints: nat)
    requires alignment > 0
  {
    && l.intRegister == -1 && l.sseRegister == -1 && l.struOffset == 0 && l.struSize == 0
    && s.offset <= l.stackOffset < s.offset + alignment && l.stackOffset % alignment == 0
    && l.stackPadding == l.stackOffset - s.offset && l.bytes == size && l.alignment == alignment
    && u == State(s.intCount + ints, s.sseCount, if alignment > s.biggest then alignment else s.biggest,
                  l.stackOffset + size)
  }

  /** Integers and pointers go to the next of six registers, floats and doubles to the next of eight, and to the stack
      when there is none; long doubles and structs that are not taken apart always go to the stack. */
  ghost predicate Places(s: State, t: Type, l: Location, u: State) {
    match t
    case Char | Short | Int | Long | Ptr | Enum => PlacesInteger(s, l, u)
    case Array(_, _) => PlacesInteger(s, l, u)
    case Float | Double =>
      if s.sseCount < 8 then l == Location(-1, s.sseCount, -1, -1, 0, 0, 0, 0) && u == s.(sseCount := s.sseCount + 1)
      else NextOnStack(s, l, u, 8, 8, 0)
    case LongDouble => NextOnStack(s, l, u, 16, 16, 0)
    case Struct(_, size) => NextOnStack(s, l, u, if size < 8 then 8 else size, if HasLongDouble(t) then 16 else 8, 0)
  }

  ghost predicate PlacesInteger(s: State, l: Location, u: State) {
    if s.intCount < 6 then l == Location(s.intCount, -1, -1, -1, 0, 0, 0, 0) && u == s.(intCount := s.intCount + 1)
    else NextOnStack(s, l, u, 8, 8, 1)
  }

  /** That is where the allocator puts it. */
  lemma EachTypePlaced(s: State, t: Type)
    ensures Places(s, t, LocationFor(s, t), StateAfter(s, t))
  {
    var d := Decay(t);
    StackAlignmentIs(d);
    RoundUpFits(s.offset, StackAlignment(d));
    AlignedOn16(d);
    hide RoundUp, HasLongDouble;
    if !d.Struct? { ScalarsAlignedToSize(d); }
  }

  /** The classes of eightbytes by the scalars in them: an integer register if an integer or a pointer lies there. */
  lemma {:induction false} IntegerExactly(scalars: seq<Scalar>, n: nat, i: nat)
    requires n <= |scalars|
    ensures HasInteger(scalars, n, i) <==>
              exists k :: 0 <= k < n && scalars[k].offset / 8 == i && scalars[k].t in {Char, Short, Int, Long, Ptr}
  {
    if n > 0 {
      IntegerExactly(scalars, n - 1, i);
      if FitsInt(scalars[n - 1].t) { assert scalars[n - 1].t in {Char, Short, Int, Long, Ptr}; }
    }
  }

  /** Anything that is neither an integer, a pointer nor a float or double puts the struct in memory, if it starts in an
      eightbyte that counts. */
  lemma {:induction false} MemoryExactly(scalars: seq<Scalar>, count: nat)
    ensures InMemory(scalars, count) <==>
              exists k :: 0 <= k < |scalars| && scalars[k].offset / 8 < count &&
                          scalars[k].t !in {Char, Short, Int, Long, Ptr, Float, Double}
  {
    if count > 0 {
      MemoryExactly(scalars, count - 1);
      MemoryAt(scalars, |scalars|, count - 1);
      if k :| 0 <= k < |scalars| && scalars[k].offset / 8 == count - 1 &&
              scalars[k].t !in {Char, Short, Int, Long, Ptr, Float, Double} {
        assert EightByte(scalars[k]) == count - 1;
      }
    }
  }

  lemma {:induction false} MemoryAt(scalars: seq<Scalar>, n: nat, i: nat)
    requires n <= |scalars|
    ensures HasMemory(scalars, n, i) <==>
              exists k :: 0 <= k < n && (scalars[k].offset / 8 == i || scalars[k].offset / 8 + 1 == i) &&
                          scalars[k].t !in {Char, Short, Int, Long, Ptr, Float, Double}
  {
    if n > 0 {
      MemoryAt(scalars, n - 1, i);
      ForMemoryExactly(scalars[n - 1]);
    }
  }

  lemma ForMemoryExactly(s: Scalar)
    ensures ForMemory(s) <==> s.t !in {Char, Short, Int, Long, Ptr, Float, Double}
  {
  }

  lemma {:induction false} UnalignedExactly(scalars: seq<Scalar>, n: nat)
    requires n <= |scalars| && forall k | 0 <= k < |scalars| :: !scalars[k].t.Array? && !scalars[k].t.Struct?
    ensures Unaligned(scalars, n) <==>
              exists k :: 0 <= k < n && SizeOf(scalars[k].t) > 0 && scalars[k].offset % SizeOf(scalars[k].t) != 0
  {
    if n > 0 {
      UnalignedExactly(scalars, n - 1);
      ScalarsAlignedToSize(scalars[n - 1].t);
      hide SizeOf, AlignOf;
    }
  }

  lemma {:induction false} FlattenedScalars(t: Type, offset: nat)
    ensures forall s | s in Flatten(t, offset) :: !s.t.Array? && !s.t.Struct?
    decreases t, if t.Struct? then |t.members| + 1 else 0
  {
    match t
    case Struct(ms, _) => FlattenedMembers(t, |ms|, offset);
    case Array(e, n) => FlattenedElements(e, n, offset);
    case _ =>
  }

  lemma {:induction false} FlattenedMembers(t: Type, k: nat, offset: nat)
    requires t.Struct? && k <= |t.members|
    ensures forall s | s in FlattenMembers(t, k, offset) :: !s.t.Array? && !s.t.Struct?
    decreases t, k
  {
    if k > 0 {
      FlattenedMembers(t, k - 1, offset);
      FlattenedScalars(t.members[k - 1].t, offset + t.members[k - 1].offset);
    }
  }

  lemma {:induction false} FlattenedElements(e: Type, n: nat, offset: nat)
    ensures forall s | s in FlattenElements(e, n, offset) :: !s.t.Array? && !s.t.Struct?
    decreases e, n + 2 + if e.Struct? then |e.members| else 0
  {
    if n > 0 {
      FlattenedElements(e, n - 1, offset);
      FlattenedScalars(e, offset + SizeOf(e) * (n - 1));
    }
  }

  /** Something in the first `count` eightbytes fits no register. */
  ghost predicate HoldsMemory(scalars: seq<Scalar>, count: nat) {
    exists k :: 0 <= k < |scalars| && scalars[k].offset / 8 < count &&
                scalars[k].t !in {Char, Short, Int, Long, Ptr, Float, Double}
  }

  /** Something is not on a multiple of its size. */
  ghost predicate HoldsMisplaced(scalars: seq<Scalar>) {
    exists k :: 0 <= k < |scalars| && SizeOf(scalars[k].t) > 0 && scalars[k].offset % SizeOf(scalars[k].t) != 0
  }

  /** An integer or a pointer is in eightbyte `i`. */
  ghost predicate HoldsInteger(scalars: seq<Scalar>, i: nat) {
    exists k :: 0 <= k < |scalars| && scalars[k].offset / 8 == i && scalars[k].t in {Char, Short, Int, Long, Ptr}
  }

  /** The first `n` eightbytes that hold an integer or a pointer. */
  ghost function IntegerEightBytes(scalars: seq<Scalar>, n: nat): set<nat> {
    set i: nat | i < n && HoldsInteger(scalars, i)
  }

  lemma {:induction false} IntsWantedIs(scalars: seq<Scalar>, n: nat)
    ensures IntsWanted(scalars, n) == |IntegerEightBytes(scalars, n)|
  {
    hide HasInteger, HoldsInteger;
    if n == 0 {
      assert IntegerEightBytes(scalars, 0) == {};
    } else {
      IntsWantedIs(scalars, n - 1);
      IntegerIs(scalars, n - 1);
      assert IntegerEightBytes(scalars, n) ==
             IntegerEightBytes(scalars, n - 1) + if HoldsInteger(scalars, n - 1) then {n - 1} else {};
    }
  }

  lemma IntegerIs(scalars: seq<Scalar>, i: nat)
    ensures HasInteger(scalars, |scalars|, i) <==> HoldsInteger(scalars, i)
  {
    IntegerExactly(scalars, |scalars|, i);
  }

  /** A struct is taken apart exactly if it has at most 16 bytes, nothing in it fits no register or is misplaced, and
      the registers left suffice for its eightbytes, of which one alone may also go to the stack. */
  lemma TakenApartExactly(s: State, t: Type)
    requires t.Struct?
    ensures var scalars := Flatten(t, 0); var n := EightByteCount(scalars); var ints := |IntegerEightBytes(scalars, n)|;
      WholeOnStack(s, t) <==>
        || t.size > 16 || HoldsMemory(scalars, n) || HoldsMisplaced(scalars)
        || (n > 1 && ((ints > 0 && s.intCount + ints > 6) || (ints < n && s.sseCount + (n - ints) > 8)))
  {
    var scalars := Flatten(t, 0);
    var n := EightByteCount(scalars);
    StructsAreWhole(s, t);
    MemoryExactly(scalars, n);
    FlattenedScalars(t, 0);
    UnalignedExactly(scalars, |scalars|);
    IntsWantedIs(scalars, n);
    hide Flatten, InMemory, Unaligned, WholeOnStack, TotalSize, IntegerEightBytes, IntsWanted;
  }

  /** Each of its eightbytes gets the next integer register if it holds an integer or a pointer, and the next SSE
      register if not. */
  lemma EightBytePlaced(s: State, t: Type, i: nat)
    requires t.Struct? && !WholeOnStack(s, t) && 1 < EightByteCount(Flatten(t, 0)) && i < EightByteCount(Flatten(t, 0))
    ensures i < |ParamLocations(s, t)|
    ensures var scalars := Flatten(t, 0); var before := |IntegerEightBytes(scalars, i)|;
      var left := TotalSize(scalars, |scalars|) - 8 * i;
      ParamLocations(s, t)[i] ==
      if HoldsInteger(scalars, i)
          then Location(s.intCount + before, -1, -1, -1, 8 * i, if left > 8 then 8 else left, 0, 0)
          else Location(-1, s.sseCount + (i - before), -1, -1, 8 * i, if left > 8 then 8 else left, 0, 0)
  {
    var scalars := Flatten(t, 0);
    var n := EightByteCount(scalars);
    StructsAreWhole(s, t);
    IntsWantedIs(scalars, i);
    IntegerIs(scalars, i);
    SufficedFor(s, scalars, n, i + 1);
    SufficedFor(s, scalars, n, i);
    EightBytesInRegisters(s, scalars, i);
    LastPlaced(s, scalars, i);
    hide Flatten, WholeOnStack, TotalSize, IntegerEightBytes, IntsWanted, HasInteger, RegistersSuffice, LocationFor;
    EightByteIs(s, scalars, n, i);
  }

  /** A struct of one eightbyte goes where an int or a float would. */
  lemma SingleEightBytePlaced(s: State, t: Type)
    requires t.Struct? && !WholeOnStack(s, t) && EightByteCount(Flatten(t, 0)) == 1
    ensures var scalars, ls := Flatten(t, 0), ParamLocations(s, t);
      && |ls| == 1 && ls[0].struOffset == 0 && ls[0].struSize == TotalSize(scalars, |scalars|)
      && Places(s, if HoldsInteger(scalars, 0) then Int else Float, ls[0].(struOffset := 0, struSize := 0),
                ParamState(s, t))
  {
    var scalars := Flatten(t, 0);
    IntegerIs(scalars, 0);
    EachTypePlaced(s, EightByteType(scalars, 0));
    NoStructFields(s, EightByteType(scalars, 0));
    assert EightByteState(s, scalars, 1) == StateAfter(EightByteState(s, scalars, 0), EightByteType(scalars, 0));
    hide Flatten, WholeOnStack, TotalSize, HasInteger, HoldsInteger, LocationFor, StateAfter, Places;
    EightByteIs(s, scalars, 1, 0);
  }

  lemma NoStructFields(s: State, t: Type)
    ensures LocationFor(s, t).struOffset == 0 && LocationFor(s, t).struSize == 0
  {
    hide RoundUp;
  }

  lemma {:induction false} SufficedFor(s: State, scalars: seq<Scalar>, n: nat, i: nat)
    requires RegistersSuffice(s, scalars, n) && i <= n
    ensures RegistersSuffice(s, scalars, i)
  {
    hide RegistersSuffice;
    if i < n {
      SufficedBefore(s, scalars, n);
      SufficedFor(s, scalars, n - 1, i);
    }
  }

  lemma LastPlaced(s: State, scalars: seq<Scalar>, i: nat)
    requires RegistersSuffice(s, scalars, i + 1) && EightByteState(s, scalars, i) == RegistersTaken(s, scalars, i)
    ensures LocationFor(EightByteState(s, scalars, i), EightByteType(scalars, i)) ==
            if HasInteger(scalars, |scalars|, i)
                then Location(s.intCount + IntsWanted(scalars, i), -1, -1, -1, 0, 0, 0, 0)
            else Location(-1, s.sseCount + (i - IntsWanted(scalars, i)), -1, -1, 0, 0, 0, 0)
  {
    hide HasInteger, TotalSize;
  }

  lemma {:induction false} EightByteIs(s: State, scalars: seq<Scalar>, n: nat, i: nat)
    requires i < n
    ensures var left := TotalSize(scalars, |scalars|) - 8 * i;
      EightByteLocations(s, scalars, n)[i] ==
      LocationFor(EightByteState(s, scalars, i), EightByteType(scalars, i)).(
        struOffset := 8 * i, struSize := if left > 8 then 8 else left)
  {
    hide EightByteState, LocationFor, EightByteType, TotalSize;
    if i < n - 1 { EightByteIs(s, scalars, n - 1, i); }
  }

  /** struct { enum E e; }: an enum of its own gets a register like an int, but inside a struct it counts as something
      that fits none, so the struct goes to the stack even where all registers are free. */
  lemma EnumInStructGoesToStack(s: State)
    ensures var t := Struct([Member(0, Enum)], 4);
      Laid(t) && WholeOnStack(s, t) && |ParamLocations(s, t)| == 1 && ParamLocations(s, t)[0].stackOffset != -1
    ensures s.intCount < 6 ==> ParamLocations(s, Enum)[0].intRegister == s.intCount
  {
    var t := Struct([Member(0, Enum)], 4);
    assert FlattenMembers(t, 0, 0) == [];
    var scalars := [Scalar(Enum, 0)];
    assert Flatten(t, 0) == FlattenMembers(t, 1, 0) == scalars;
    assert TotalSize(scalars, 1) == 4;
    assert scalars[0].offset / 8 < 1;
    MemoryExactly(scalars, 1);
    StructsAreWhole(s, t);
  }
}
