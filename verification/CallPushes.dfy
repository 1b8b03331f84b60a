/** Counting pushes around function calls and aligning the stack for them (codegen.c:533-606). */
module CallPushes {

  /** The instructions that matter here. A call value is named by its number: IR_START_CALL and IR_END_CALL of one
      call share it. */
  datatype Instr =
    | StartCall(id: nat)
    | EndCall(id: nat)
    | Arg                        // X_ARG: one push
    | ArgStackPadding            // IR_ARG_STACK_PADDING: 8 bytes
    | AllocateStack(bytes: nat)  // X_ALLOCATE_STACK
    | XCall
    | Other

  /** What is emitted: the instruction itself, or an adjustment of the stack pointer. */
  datatype Out = Keep(i: Instr) | SubRsp(bytes: int) | AddRsp(bytes: int)

  /** The push counter, and the push counts of the call values, which START_CALL changes for END_CALL to see. */
  datatype State = State(pushes: int, counts: seq<int>)

  function AlignmentPushes(s: State, paddings: seq<int>, id: nat): int
    requires id < |s.counts| == |paddings|
  {
    var padded, odd := paddings[id] >= 8, (s.pushes + s.counts[id]) % 2 == 1;
    if padded && odd then 0 else if padded || odd then 1 else 0
  }

  function CountAfterStart(s: State, paddings: seq<int>, id: nat): int
    requires id < |s.counts| == |paddings|
  {
    var padded, odd := paddings[id] >= 8, (s.pushes + s.counts[id]) % 2 == 1;
    if padded && odd then s.counts[id] - 1 else if odd then s.counts[id] + 1 else s.counts[id]
  }

  predicate KnownId(i: Instr, n: nat) {
    (i.StartCall? || i.EndCall?) ==> i.id < n
  }

  function Step(s: State, paddings: seq<int>, i: Instr): (r: State)
    requires |s.counts| == |paddings| && KnownId(i, |paddings|)
    ensures |r.counts| == |s.counts|
  {
    match i
    case StartCall(id) =>
      State(s.pushes + AlignmentPushes(s, paddings, id), s.counts[id := CountAfterStart(s, paddings, id)])
    case EndCall(id) => if s.counts[id] > 0 then s.(pushes := s.pushes - s.counts[id]) else s
    case Arg => s.(pushes := s.pushes + 1)
    case ArgStackPadding => s.(pushes := s.pushes + 1)
    case AllocateStack(bytes) => s.(pushes := s.pushes + bytes / 8)
    case XCall => s
    case Other => s
  }

  function Walk(s: State, paddings: seq<int>, ir: seq<Instr>): (r: State)
    requires |s.counts| == |paddings| && forall k | 0 <= k < |ir| :: KnownId(ir[k], |paddings|)
    ensures |r.counts| == |s.counts|
    decreases ir
  {
    if ir == [] then s else Walk(Step(s, paddings, ir[0]), paddings, ir[1..])
  }

  /** The push count is even at every call. */
  predicate EvenAtCalls(s: State, paddings: seq<int>, ir: seq<Instr>)
    requires |s.counts| == |paddings| && forall k | 0 <= k < |ir| :: KnownId(ir[k], |paddings|)
    decreases ir
  {
    ir == [] || ((ir[0] == XCall ==> s.pushes % 2 == 0) && EvenAtCalls(Step(s, paddings, ir[0]), paddings, ir[1..]))
  }

  lemma {:induction false} WalkConcat(s: State, paddings: seq<int>, a: seq<Instr>, b: seq<Instr>)
    requires |s.counts| == |paddings| && forall k | 0 <= k < |a| :: KnownId(a[k], |paddings|)
    requires forall k | 0 <= k < |b| :: KnownId(b[k], |paddings|)
    ensures forall k | 0 <= k < |a + b| :: KnownId((a + b)[k], |paddings|)
    ensures Walk(s, paddings, a + b) == Walk(Walk(s, paddings, a), paddings, b)
    ensures EvenAtCalls(s, paddings, a + b) <==>
              EvenAtCalls(s, paddings, a) && EvenAtCalls(Walk(s, paddings, a), paddings, b)
    decreases a
  {
    if a == [] {
      assert a + b == b;
    } else {
      assert (a + b)[1..] == a[1..] + b;
      WalkConcat(Step(s, paddings, a[0]), paddings, a[1..], b);
    }
  }

  // Well-nested calls

  /** What happens between the start of a call and the call itself. */
  datatype Part = Push | Gap | Allocate(bytes: nat) | Inner(call: Call) | Quiet

  datatype Call = Call(id: nat, parts: seq<Part>)

  function Code(c: Call): seq<Instr>
    decreases c, |c.parts| + 1
  {
    [StartCall(c.id)] + PartsCode(c, |c.parts|) + [XCall, EndCall(c.id)]
  }

  function PartsCode(c: Call, n: nat): seq<Instr>
    requires n <= |c.parts|
    decreases c, n
  {
    if n == 0 then [] else PartsCode(c, n - 1) + PartCode(c, n - 1)
  }

  function PartCode(c: Call, k: nat): seq<Instr>
    requires k < |c.parts|
    decreases c, k
  {
    match c.parts[k]
    case Push => [Arg]
    case Gap => [ArgStackPadding]
    case Allocate(bytes) => [AllocateStack(bytes)]
    case Inner(d) => Code(d)
    case Quiet => [Other]
  }

  /** The words that a part leaves on the stack; inner calls leave nothing. */
  function Words(p: Part): nat {
    match p
    case Push => 1
    case Gap => 1
    case Allocate(bytes) => bytes / 8
    case Inner(_) => 0
    case Quiet => 0
  }

  /** The words that the first `n` parts leave. */
  function PushesOf(c: Call, n: nat): nat
    requires n <= |c.parts|
  {
    if n == 0 then 0 else PushesOf(c, n - 1) + Words(c.parts[n - 1])
  }

  function Ids(c: Call): set<nat>
    decreases c, |c.parts| + 1
  {
    {c.id} + PartIds(c, |c.parts|)
  }

  function PartIds(c: Call, n: nat): set<nat>
    requires n <= |c.parts|
    decreases c, n
  {
    if n == 0 then {} else PartIds(c, n - 1) + match c.parts[n - 1] case Inner(d) => Ids(d) case _ => {}
  }

  /** The push count of every call value is the number of pushes for its arguments, and one more if the end is
      padded; every call has a value of its own. */
  ghost predicate Matches(c: Call, counts: seq<int>, paddings: seq<int>)
    decreases c, |c.parts| + 1
  {
    && c.id < |counts| == |paddings|
    && counts[c.id] == PushesOf(c, |c.parts|) + (if paddings[c.id] >= 8 then 1 else 0)
    && c.id !in PartIds(c, |c.parts|)
    && PartsMatch(c, |c.parts|, counts, paddings)
  }

  ghost predicate PartsMatch(c: Call, n: nat, counts: seq<int>, paddings: seq<int>)
    requires n <= |c.parts|
    decreases c, n
  {
    n == 0 ||
    (PartsMatch(c, n - 1, counts, paddings) &&
     (c.parts[n - 1].Inner? ==>
         Matches(c.parts[n - 1].call, counts, paddings) && Ids(c.parts[n - 1].call) !! PartIds(c, n - 1)))
  }

  /** Counts are compared only at the numbers of the calls concerned. */
  ghost predicate SameAt(ids: set<nat>, a: seq<int>, b: seq<int>) {
    |a| == |b| && forall i | i in ids && i < |a| :: a[i] == b[i]
  }

  lemma {:induction false} MatchesFrame(c: Call, a: seq<int>, b: seq<int>, paddings: seq<int>)
    requires Matches(c, a, paddings) && SameAt(Ids(c), a, b)
    ensures Matches(c, b, paddings)
    decreases c, |c.parts| + 1
  {
    PartsFrame(c, |c.parts|, a, b, paddings);
  }

  lemma {:induction false} PartsFrame(c: Call, n: nat, a: seq<int>, b: seq<int>, paddings: seq<int>)
    requires n <= |c.parts| && PartsMatch(c, n, a, paddings) && SameAt(PartIds(c, n), a, b)
    ensures PartsMatch(c, n, b, paddings)
    decreases c, n
  {
    if n > 0 {
      PartsFrame(c, n - 1, a, b, paddings);
      if c.parts[n - 1].Inner? { MatchesFrame(c.parts[n - 1].call, a, b, paddings); }
    }
  }

  lemma {:induction false} CodeKnown(c: Call, counts: seq<int>, paddings: seq<int>)
    requires Matches(c, counts, paddings)
    ensures forall k | 0 <= k < |Code(c)| :: KnownId(Code(c)[k], |paddings|)
    decreases c, |c.parts| + 1
  {
    PartsKnown(c, |c.parts|, counts, paddings);
  }

  lemma {:induction false} PartsKnown(c: Call, n: nat, counts: seq<int>, paddings: seq<int>)
    requires n <= |c.parts| && PartsMatch(c, n, counts, paddings)
    ensures forall k | 0 <= k < |PartsCode(c, n)| :: KnownId(PartsCode(c, n)[k], |paddings|)
    decreases c, n
  {
    if n > 0 {
      PartsKnown(c, n - 1, counts, paddings);
      if c.parts[n - 1].Inner? {
        CodeKnown(c.parts[n - 1].call, counts, paddings);
      } else {
        assert |PartCode(c, n - 1)| == 1 && KnownId(PartCode(c, n - 1)[0], |paddings|);
      }
    }
  }

  lemma CodeParts(c: Call)
    ensures Code(c) == [StartCall(c.id)] + (PartsCode(c, |c.parts|) + [XCall, EndCall(c.id)])
  {
  }

  /** A call, with all the calls in its arguments, finds an even push count at every call instruction and leaves the
      push count as it was. The values of other calls are not touched. */
  lemma {:induction false} CallIsAligned(c: Call, s: State, paddings: seq<int>)
    requires Matches(c, s.counts, paddings)
    ensures forall k | 0 <= k < |Code(c)| :: KnownId(Code(c)[k], |paddings|)
    ensures EvenAtCalls(s, paddings, Code(c))
    ensures Walk(s, paddings, Code(c)).pushes == s.pushes
    ensures forall i | 0 <= i < |s.counts| && i !in Ids(c) :: Walk(s, paddings, Code(c)).counts[i] == s.counts[i]
    decreases c, |c.parts| + 1
  {
    CodeKnown(c, s.counts, paddings);
    PartsKnown(c, |c.parts|, s.counts, paddings);
    CodeParts(c);
    hide KnownId, Code, PartsCode, Walk, EvenAtCalls;
    var n := |c.parts|;
    var u := Step(s, paddings, StartCall(c.id));
    PartsFrame(c, n, s.counts, u.counts, paddings);
    PartsPush(c, n, u, paddings);
    var parts := PartsCode(c, n);
    WalkConcat(s, paddings, [StartCall(c.id)], parts + [XCall, EndCall(c.id)]);
    WalkConcat(u, paddings, parts, [XCall, EndCall(c.id)]);
    var w := Walk(u, paddings, parts);
    WalkOne(s, paddings, StartCall(c.id));
    CallAndEnd(w, paddings, c.id);
    StartBalances(s, paddings, c.id, PushesOf(c, n));
  }

  lemma WalkOne(s: State, paddings: seq<int>, i: Instr)
    requires |s.counts| == |paddings| && KnownId(i, |paddings|)
    ensures Walk(s, paddings, [i]) == Step(s, paddings, i)
    ensures EvenAtCalls(s, paddings, [i]) <==> (i == XCall ==> s.pushes % 2 == 0)
  {
    assert [i][1..] == [];
  }

  lemma CallAndEnd(w: State, paddings: seq<int>, id: nat)
    requires id < |w.counts| == |paddings|
    ensures Walk(w, paddings, [XCall, EndCall(id)]) == Step(w, paddings, EndCall(id))
    ensures EvenAtCalls(w, paddings, [XCall, EndCall(id)]) <==> w.pushes % 2 == 0
  {
    assert [XCall, EndCall(id)][1..] == [EndCall(id)];
    WalkOne(w, paddings, EndCall(id));
  }

  /** START_CALL sets the count to exactly what will have been pushed since, and makes the total even, with one push if
      it is odd and none if not. */
  lemma StartBalances(s: State, paddings: seq<int>, id: nat, pushed: nat)
    requires id < |s.counts| == |paddings| && s.counts[id] == pushed + (if paddings[id] >= 8 then 1 else 0)
    ensures Step(s, paddings, StartCall(id)).pushes == s.pushes + (s.pushes + pushed) % 2
    ensures var u := Step(s, paddings, StartCall(id));
      && u.counts[id] == pushed + AlignmentPushes(s, paddings, id) && u.counts[id] >= 0
      && (u.pushes + pushed) % 2 == 0 && u.pushes + pushed - u.counts[id] == s.pushes
  {
  }

  /** One part pushes what it is said to push, and a call in it is aligned. */
  lemma {:induction false} PartPushes(c: Call, k: nat, u: State, paddings: seq<int>)
    requires k < |c.parts| && |u.counts| == |paddings|
    requires c.parts[k].Inner? ==> Matches(c.parts[k].call, u.counts, paddings)
    ensures forall j | 0 <= j < |PartCode(c, k)| :: KnownId(PartCode(c, k)[j], |paddings|)
    ensures EvenAtCalls(u, paddings, PartCode(c, k))
    ensures Walk(u, paddings, PartCode(c, k)).pushes == u.pushes + Words(c.parts[k])
    ensures forall i | 0 <= i < |u.counts| && !(c.parts[k].Inner? && i in Ids(c.parts[k].call)) ::
              Walk(u, paddings, PartCode(c, k)).counts[i] == u.counts[i]
    decreases c, k
  {
    if c.parts[k].Inner? {
      CallIsAligned(c.parts[k].call, u, paddings);
    } else {
      var i := PartCode(c, k)[0];
      assert PartCode(c, k) == [i];
      WalkOne(u, paddings, i);
    }
  }

  /** The arguments push what they are said to push, and the calls among them are aligned. */
  lemma {:induction false} PartsPush(c: Call, n: nat, s: State, paddings: seq<int>)
    requires n <= |c.parts| && |s.counts| == |paddings| && PartsMatch(c, n, s.counts, paddings)
    ensures forall k | 0 <= k < |PartsCode(c, n)| :: KnownId(PartsCode(c, n)[k], |paddings|)
    ensures EvenAtCalls(s, paddings, PartsCode(c, n))
    ensures Walk(s, paddings, PartsCode(c, n)).pushes == s.pushes + PushesOf(c, n)
    ensures forall i | 0 <= i < |s.counts| && i !in PartIds(c, n) ::
              Walk(s, paddings, PartsCode(c, n)).counts[i] == s.counts[i]
    decreases c, n
  {
    hide Step, Matches, PartCode, KnownId;
    PartsKnown(c, n, s.counts, paddings);
    if n > 0 {
      PartsPush(c, n - 1, s, paddings);
      hide Walk, EvenAtCalls;
      var u := Walk(s, paddings, PartsCode(c, n - 1));
      if c.parts[n - 1].Inner? { MatchesFrame(c.parts[n - 1].call, s.counts, u.counts, paddings); }
      PartPushes(c, n - 1, u, paddings);
      WalkConcat(s, paddings, PartsCode(c, n - 1), PartCode(c, n - 1));
    }
  }
}
