/** The stack at calls, from allocator to code (codegen.c:533-606). */
module CallAlignment {
  import opened ParamTypes
  import opened ParamAllocation
  import opened ParamAllocator
  import P = CallPushes

  // The walk

  /** The words by which an emitted instruction moves the stack pointer. */
  function Moves(o: P.Out): int {
    match o
    case Keep(i) => (match i case Arg => 1 case AllocateStack(bytes) => bytes / 8 case _ => 0)
    case SubRsp(bytes) => bytes / 8
    case AddRsp(bytes) => -(bytes / 8)
  }

  function Depth(out: seq<P.Out>): int {
    if out == [] then 0 else Depth(out[..|out| - 1]) + Moves(out[|out| - 1])
  }

  ghost predicate AlignedAt(start: int, out: seq<P.Out>, k: int)
    requires 0 <= k < |out|
  {
    out[k] == P.Keep(P.XCall) ==> (start + Depth(out[..k])) % 2 == 0
  }

  /** Starting from `start` words, the depth of the stack is even at every emitted call. */
  ghost predicate AlignedCalls(start: int, out: seq<P.Out>) {
    forall k | 0 <= k < |out| :: AlignedAt(start, out, k)
  }

  lemma DepthNext(out: seq<P.Out>, o: P.Out)
    ensures Depth(out + [o]) == Depth(out) + Moves(o)
  {
    assert (out + [o])[..|out + [o]| - 1] == out;
  }

  lemma EarlierAligned(start: int, out: seq<P.Out>, o: P.Out, k: nat)
    requires k < |out|
    ensures AlignedAt(start, out + [o], k) <==> AlignedAt(start, out, k)
  {
    hide Depth;
    assert (out + [o])[..k] == out[..k];
  }

  lemma LastAligned(start: int, out: seq<P.Out>, o: P.Out)
    ensures AlignedAt(start, out + [o], |out|) <==> (o == P.Keep(P.XCall) ==> (start + Depth(out)) % 2 == 0)
  {
    hide Depth;
    assert (out + [o])[..|out|] == out;
  }

  lemma Emit(start: int, out: seq<P.Out>, o: P.Out)
    ensures Depth(out + [o]) == Depth(out) + Moves(o)
    ensures AlignedCalls(start, out + [o]) <==>
              AlignedCalls(start, out) && (o == P.Keep(P.XCall) ==> (start + Depth(out)) % 2 == 0)
  {
    hide AlignedAt, Moves, Depth;
    DepthNext(out, o);
    forall k | 0 <= k < |out| ensures AlignedAt(start, out + [o], k) <==> AlignedAt(start, out, k) {
      EarlierAligned(start, out, o, k);
    }
    LastAligned(start, out, o);
  }

  ghost predicate Known(ir: seq<P.Instr>, n: nat) {
    forall k | 0 <= k < |ir| :: P.KnownId(ir[k], n)
  }

  lemma WalkNext(s: P.State, paddings: seq<int>, ir: seq<P.Instr>, n: nat)
    requires |s.counts| == |paddings| && Known(ir, |paddings|) && n < |ir|
    ensures Known(ir[..n], |paddings|) && Known(ir[..n + 1], |paddings|)
    ensures P.Walk(s, paddings, ir[..n + 1]) == P.Step(P.Walk(s, paddings, ir[..n]), paddings, ir[n])
    ensures P.EvenAtCalls(s, paddings, ir[..n + 1]) <==>
              P.EvenAtCalls(s, paddings, ir[..n]) && (ir[n] == P.XCall ==> P.Walk(s, paddings, ir[..n]).pushes % 2 == 0)
  {
    assert ir[..n + 1] == ir[..n] + [ir[n]];
    P.WalkConcat(s, paddings, ir[..n], [ir[n]]);
    P.WalkOne(P.Walk(s, paddings, ir[..n]), paddings, ir[n]);
  }

  /** Walk over the instructions from `start` pushes. The counter is always the depth of the stack, so if the counter
      is even at every call, the stack is aligned on 16 bytes there. The counts of the call values are updated in
      place. */
  method AddFinalInstructions(ir: seq<P.Instr>, counts: array<int>, paddings: seq<int>,
                              start: int) returns (pushes: int, out: seq<P.Out>)
    requires counts.Length == |paddings| && Known(ir, |paddings|)
    modifies counts
    ensures P.State(pushes, counts[..]) == P.Walk(P.State(start, old(counts[..])), paddings, ir)
    ensures pushes == start + Depth(out)
    ensures AlignedCalls(start, out) <==> P.EvenAtCalls(P.State(start, old(counts[..])), paddings, ir)
  {
    hide P.Walk, P.EvenAtCalls, AlignedCalls, Depth;
    pushes, out := start, [];
    ghost var s := P.State(start, counts[..]);
    NothingWalked(s, paddings, ir, start);
    for n := 0 to |ir|
      invariant Known(ir[..n], |paddings|) && P.State(pushes, counts[..]) == P.Walk(s, paddings, ir[..n])
      invariant pushes == start + Depth(out)
      invariant AlignedCalls(start, out) <==> P.EvenAtCalls(s, paddings, ir[..n])
    {
      var i := ir[n];
      WalkNext(s, paddings, ir, n);
      KnownAt(ir, |paddings|, n);
      ghost var was := out;
      match i
      case StartCall(id) =>
        Emit(start, out, P.Keep(P.Other));
        out := out + [P.Keep(P.Other)];
        var alignmentPushes := if paddings[id] >= 8 then 1 else 0;
        if (pushes + counts[id]) % 2 == 1 {
          counts[id] := counts[id] + 1;
          alignmentPushes := alignmentPushes + 1;
        }
        if alignmentPushes == 2 {
          counts[id] := counts[id] - 2;
          alignmentPushes := 0;
        }
        if alignmentPushes != 0 {
          pushes := pushes + alignmentPushes;
          Emit(start, out, P.SubRsp(alignmentPushes * 8));
          out := out + [P.SubRsp(alignmentPushes * 8)];
        }
      case EndCall(id) =>
        Emit(start, out, P.Keep(P.Other));
        out := out + [P.Keep(P.Other)];
        if counts[id] > 0 {
          pushes := pushes - counts[id];
          Emit(start, out, P.AddRsp(counts[id] * 8));
          out := out + [P.AddRsp(counts[id] * 8)];
        }
      case Arg =>
        pushes := pushes + 1;
        Emit(start, out, P.Keep(i));
        out := out + [P.Keep(i)];
      case ArgStackPadding =>
        pushes := pushes + 1;
        Emit(start, out, P.Keep(P.Other));
        out := out + [P.Keep(P.Other)];
        Emit(start, out, P.SubRsp(8));
        out := out + [P.SubRsp(8)];
      case AllocateStack(bytes) =>
        pushes := pushes + bytes / 8;
        Emit(start, out, P.Keep(i));
        out := out + [P.Keep(i)];
      case XCall =>
        Emit(start, out, P.Keep(i));
        out := out + [P.Keep(i)];
      case Other =>
        Emit(start, out, P.Keep(i));
        out := out + [P.Keep(i)];
    }
    assert ir[..|ir|] == ir;
  }

  lemma NothingWalked(s: P.State, paddings: seq<int>, ir: seq<P.Instr>, start: int)
    requires |s.counts| == |paddings|
    ensures Known(ir[..0], |paddings|) && P.Walk(s, paddings, ir[..0]) == s && P.EvenAtCalls(s, paddings, ir[..0])
    ensures Depth([]) == 0 && AlignedCalls(start, [])
  {
    assert ir[..0] == [];
  }

  lemma KnownAt(ir: seq<P.Instr>, n: nat, k: nat)
    requires Known(ir, n) && k < |ir|
    ensures P.KnownId(ir[k], n)
  {
  }

  // What the allocator promises

  /** The words that the argument for a location pushes, with the gap in front of it. */
  function StackWords(l: Location): int {
    if l.stackOffset == -1 then 0 else (l.bytes + 7) / 8 + if l.stackPadding >= 8 then 1 else 0
  }

  function AllStackWords(ls: seq<Location>): int {
    if ls == [] then 0 else AllStackWords(ls[..|ls| - 1]) + StackWords(ls[|ls| - 1])
  }

  function WordsUpTo(offset: nat): nat {
    (offset + 7) / 8
  }

  lemma {:induction false} StackWordsConcat(a: seq<Location>, b: seq<Location>)
    ensures AllStackWords(a + b) == AllStackWords(a) + AllStackWords(b)
  {
    if b == [] {
      assert a + b == a;
    } else {
      assert (a + b)[..|a + b| - 1] == a + b[..|b| - 1];
      StackWordsConcat(a, b[..|b| - 1]);
    }
  }

  lemma WordsRound8(x: nat, bytes: nat)
    ensures var at := (x + 7) / 8 * 8; at - x < 8 && WordsUpTo(at + bytes) == WordsUpTo(x) + (bytes + 7) / 8
  {
    var q := (x + 7) / 8;
    assert q * 8 + bytes + 7 == 8 * q + (bytes + 7);
  }

  lemma WordsRound16(x: nat, bytes: nat)
    ensures var at := (x + 15) / 16 * 16;
      WordsUpTo(at + bytes) == WordsUpTo(x) + (bytes + 7) / 8 + if at - x >= 8 then 1 else 0
  {
    var q := (x + 15) / 16;
    assert q * 16 + bytes + 7 == 8 * (2 * q) + (bytes + 7);
    assert WordsUpTo(q * 16 + bytes) == 2 * q + (bytes + 7) / 8;
    assert x + 15 == 16 * q + (x + 15) % 16;
  }

  lemma RoundedWords(x: nat, alignment: nat, bytes: nat)
    requires alignment == 8 || alignment == 16
    ensures WordsUpTo(RoundUp(x, alignment) + bytes) ==
              WordsUpTo(x) + (bytes + 7) / 8 + if RoundUp(x, alignment) - x >= 8 then 1 else 0
  {
    if alignment == 8 { WordsRound8(x, bytes); } else { WordsRound16(x, bytes); }
  }

  /** One location adds to the offset what its argument pushes. */
  lemma LocationWords(s: State, t: Type)
    ensures WordsUpTo(StateAfter(s, t).offset) == WordsUpTo(s.offset) + StackWords(LocationFor(s, t))
  {
    hide RoundUp, WordsUpTo, SizeOf, AlignOf;
    var d := Decay(t);
    StackAlignmentIs(d);
    RoundUpFits(s.offset, StackAlignment(d));
    RoundedWords(s.offset, StackAlignment(d), StackBytes(d));
  }

  lemma {:induction false} EightByteWords(s: State, scalars: seq<Scalar>, n: nat)
    ensures WordsUpTo(EightByteState(s, scalars, n).offset) ==
              WordsUpTo(s.offset) + AllStackWords(EightByteLocations(s, scalars, n))
  {
    hide LocationFor, StateAfter, WordsUpTo;
    if n > 0 {
      EightByteWords(s, scalars, n - 1);
      LocationWords(EightByteState(s, scalars, n - 1), EightByteType(scalars, n - 1));
      var ls := EightByteLocations(s, scalars, n);
      assert ls[..n - 1] == EightByteLocations(s, scalars, n - 1);
    }
  }

  lemma ParamWords(s: State, t: Type)
    ensures WordsUpTo(ParamState(s, t).offset) == WordsUpTo(s.offset) + AllStackWords(ParamLocations(s, t))
  {
    hide LocationFor, StateAfter, WordsUpTo, WholeOnStack;
    if !t.Struct? || WholeOnStack(s, t) {
      LocationWords(s, t);
      var l := LocationFor(s, t);
      assert [l][..0] == [];
    } else {
      EightByteWords(s, Flatten(t, 0), EightByteCount(Flatten(t, 0)));
    }
  }

  lemma {:induction false} AllParamWords(ts: seq<Type>, n: nat)
    requires n <= |ts|
    ensures WordsUpTo(StateOf(ts, n).offset) == AllStackWords(LocationsOf(ts, n))
  {
    hide ParamState, ParamLocations;
    if n > 0 {
      AllParamWords(ts, n - 1);
      ParamWords(StateOf(ts, n - 1), ts[n - 1]);
      StackWordsConcat(LocationsOf(ts, n - 1), ParamLocations(StateOf(ts, n - 1), ts[n - 1]));
    }
  }

  /** The words up to the end of the stack part, which is rounded up to the biggest alignment; nothing is placed if
      that is 0. */
  lemma EndWords(offset: nat, biggest: nat, size: nat, padding: nat)
    requires biggest == 0 || biggest == 8 || biggest == 16
    requires biggest == 0 ==> offset == 0
    requires size == RoundUp(offset, biggest) && size == offset + padding
    ensures WordsUpTo(size) == WordsUpTo(offset) + if padding >= 8 then 1 else 0
  {
    if biggest != 0 { RoundedWords(offset, biggest, 0); }
  }

  /** The push count and padding that a call gets from the allocator are what its arguments push, and one more word
      exactly if the end is padded by 8 bytes or more: what the walk above expects of them. */
  lemma AllocatorSuppliesCounts(ts: seq<Type>, size: nat, padding: nat)
    requires var s := StateOf(ts, |ts|); size == RoundUp(s.offset, s.biggest) && size == s.offset + padding
    ensures (size + 7) / 8 == AllStackWords(LocationsOf(ts, |ts|)) + if padding >= 8 then 1 else 0
  {
    hide RoundUp, AllStackWords, LocationsOf, StateOf, Sound;
    var s := StateOf(ts, |ts|);
    AllParamWords(ts, |ts|);
    AllocationsAreSound(ts, |ts|);
    SoundCounters(s, LocationsOf(ts, |ts|));
    EndWords(s.offset, s.biggest, size, padding);
  }

  // Both together

  /** The push count and padding are those of an allocation of these parameter types. */
  ghost predicate SuppliedBy(ts: seq<Type>, count: int, padding: int) {
    var s := StateOf(ts, |ts|);
    var size := RoundUp(s.offset, s.biggest);
    count == (size + 7) / 8 && padding == size - s.offset
  }

  /** Every call, with those among its arguments, pushes what the locations of its parameter types ask for, and has a
      value of its own whose counts come from the allocator. */
  ghost predicate Prepared(c: P.Call, types: nat -> seq<Type>, counts: seq<int>, paddings: seq<int>)
    decreases c, |c.parts| + 1
  {
    && c.id < |counts| == |paddings| && SuppliedBy(types(c.id), counts[c.id], paddings[c.id])
    && P.PushesOf(c, |c.parts|) == AllStackWords(LocationsOf(types(c.id), |types(c.id)|))
    && c.id !in P.PartIds(c, |c.parts|) && PartsPrepared(c, |c.parts|, types, counts, paddings)
  }

  ghost predicate PartsPrepared(c: P.Call, n: nat, types: nat -> seq<Type>, counts: seq<int>, paddings: seq<int>)
    requires n <= |c.parts|
    decreases c, n
  {
    n == 0 ||
    (PartsPrepared(c, n - 1, types, counts, paddings) &&
     (c.parts[n - 1].Inner? ==>
        Prepared(c.parts[n - 1].call, types, counts, paddings) && P.Ids(c.parts[n - 1].call) !! P.PartIds(c, n - 1)))
  }

  lemma SuppliedIsPushed(ts: seq<Type>, count: int, padding: int)
    requires SuppliedBy(ts, count, padding)
    ensures count == AllStackWords(LocationsOf(ts, |ts|)) + if padding >= 8 then 1 else 0
  {
    hide AllStackWords, LocationsOf, StateOf, RoundUp;
    var s := StateOf(ts, |ts|);
    SizeIsEnough(ts);
    AllocatorSuppliesCounts(ts, RoundUp(s.offset, s.biggest), padding);
  }

  lemma SizeIsEnough(ts: seq<Type>)
    ensures var s := StateOf(ts, |ts|); RoundUp(s.offset, s.biggest) >= s.offset
  {
    AllocationsAreSound(ts, |ts|);
    SoundCounters(StateOf(ts, |ts|), LocationsOf(ts, |ts|));
  }

  /** What the allocator supplies is what the walk over the instructions needs. */
  lemma {:induction false} PreparedMatches(c: P.Call, types: nat -> seq<Type>, counts: seq<int>, paddings: seq<int>)
    requires Prepared(c, types, counts, paddings)
    ensures P.Matches(c, counts, paddings)
    decreases c, |c.parts| + 1
  {
    hide SuppliedBy, AllStackWords, LocationsOf;
    SuppliedIsPushed(types(c.id), counts[c.id], paddings[c.id]);
    PartsPreparedMatch(c, |c.parts|, types, counts, paddings);
  }

  lemma {:induction false} PartsPreparedMatch(c: P.Call, n: nat, types: nat -> seq<Type>, counts: seq<int>,
                                              paddings: seq<int>)
    requires n <= |c.parts| && PartsPrepared(c, n, types, counts, paddings)
    ensures P.PartsMatch(c, n, counts, paddings)
    decreases c, n
  {
    if n > 0 {
      PartsPreparedMatch(c, n - 1, types, counts, paddings);
      if c.parts[n - 1].Inner? { PreparedMatches(c.parts[n - 1].call, types, counts, paddings); }
    }
  }

  /** A whole call with its arguments: every call instruction finds the stack aligned, and the depth ends where it
      began. */
  method EmitCall(c: P.Call, ghost types: nat -> seq<Type>, counts: array<int>, paddings: seq<int>,
                  start: int) returns (out: seq<P.Out>)
    requires Prepared(c, types, counts[..], paddings)
    modifies counts
    ensures AlignedCalls(start, out) && Depth(out) == 0
  {
    hide P.Walk, P.EvenAtCalls, AlignedCalls, Depth, Prepared, P.Matches;
    PreparedMatches(c, types, counts[..], paddings);
    P.CallIsAligned(c, P.State(start, counts[..]), paddings);
    MatchesSizes(c, counts[..], paddings);
    var pushes;
    pushes, out := AddFinalInstructions(P.Code(c), counts, paddings, start);
  }

  lemma MatchesSizes(c: P.Call, counts: seq<int>, paddings: seq<int>)
    requires P.Matches(c, counts, paddings)
    ensures |counts| == |paddings|
  {
  }
}
