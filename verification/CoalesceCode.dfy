/** A round of coalescing carried out on code and liveout sets (ssa.c:1549-1595). */
module CoalesceCode {
  import opened Cfgs
  import opened Ir
  import opened EdgeMatrix
  import opened Separation
  import opened Interference
  import opened InterferenceSound
  import opened Pending
  import opened Basics

  function RepOf(pending: Renames): Placement {
    v => Rep(pending, v)
  }

  /** The renamed instruction; a move onto itself becomes a Nop without operands. */
  function Coalesced(pending: Renames, i: Instr): Instr {
    var j := Placed(RepOf(pending), i);
    if IsIrMove(j) && j.dst != 0 && j.src1 != 0 && j.dst == j.src1 then Instr(Nop, 0, 0, 0, i.imm) else j
  }

  ghost predicate CoalescedCode(pending: Renames, p: Program, q: Program) {
    && q.g == p.g && |q.code| == |p.code|
    && forall b: nat | b < |p.code| :: CoalescedBlock(pending, p.code[b], q.code[b])
  }

  ghost predicate CoalescedBlock(pending: Renames, code: seq<Instr>, now: seq<Instr>) {
    |now| == |code| && forall k: nat | k < |code| :: now[k] == Coalesced(pending, code[k])
  }

  lemma CoalescedBecomes(n: nat, c: Context, pending: Renames, i: Instr)
    requires Settled(n, c, pending) && TypesFit(c, i)
    ensures Becomes(RepOf(pending), i, Coalesced(pending, i))
  {
  }

  lemma CoalescedIsRewritten(n: nat, c: Context, pending: Renames, p: Program, q: Program)
    requires CoalescedCode(pending, p, q) && Settled(n, c, pending) && Typed(p, c)
    ensures Rewritten(p, q, RepOf(pending))
  {
    hide Settled, TypesFit, Coalesced;
    forall b: nat, k: nat | b < |p.code| && k < |p.code[b]|
      ensures |q.code[b]| == |p.code[b]| && Becomes(RepOf(pending), p.code[b][k], q.code[b][k])
    {
      assert CoalescedBlock(pending, p.code[b], q.code[b]);
      CoalescedBecomes(n, c, pending, p.code[b][k]);
    }
    forall b: nat | b < |p.code|
      ensures |q.code[b]| == |p.code[b]|
    {
      assert CoalescedBlock(pending, p.code[b], q.code[b]);
    }
  }

  // Operands that instruction selection needs distinct

  predicate DistinctOperands(i: Instr) {
    && (i.dst != 0 && i.src1 != 0 ==> i.dst != i.src1 || i.op == Move)
    && (i.dst != 0 && i.src2 != 0 ==> i.dst != i.src2)
    && (i.src1 != 0 && i.src2 != 0 ==> i.src1 != i.src2)
  }

  /** The check made on every instruction after renaming. */
  predicate PassesCheck(i: Instr) {
    && !(i.dst != 0 && i.src1 != 0 && i.dst == i.src1)
    && !(i.dst != 0 && i.src2 != 0 && i.dst == i.src2)
    && !(i.src1 != 0 && i.src2 != 0 && i.src1 == i.src2)
  }

  ghost predicate AllDistinct(p: Program) {
    forall b, k | 0 <= b < |p.code| && 0 <= k < |p.code[b]| :: DistinctOperands(p.code[b][k])
  }

  ghost predicate MovesUnary(p: Program) {
    forall b, k | 0 <= b < |p.code| && 0 <= k < |p.code[b]| && IsIrMove(p.code[b][k]) ::
        p.code[b][k].src2 == 0
  }

  /** The check passes exactly if the operands were distinct before. */
  lemma CheckIsDistinct(n: nat, c: Context, pending: Renames, original: set<Edge>, current: set<Edge>, i: Instr)
    requires c.instrsel && SelectionEdges(c, i) <= original && CoversMembers(original, current, pending)
    requires Settled(n, c, pending) && TypesFit(c, i) && (IsIrMove(i) ==> i.src2 == 0)
    ensures PassesCheck(Coalesced(pending, i)) <==> DistinctOperands(i)
    ensures DistinctOperands(i) ==> DistinctOperands(Coalesced(pending, i))
  {
    if !IsIrMove(i) {
      if i.dst != 0 && i.src1 != 0 { assert Has(original, i.dst, i.src1); }
      if i.dst != 0 && i.src2 != 0 { assert Has(original, i.dst, i.src2); }
      if i.src1 != 0 && i.src2 != 0 { assert Has(original, i.src1, i.src2); }
    }
  }

  ghost predicate Passes(block: seq<Instr>) {
    forall k: nat | k < |block| :: PassesCheck(block[k])
  }

  /** Rename the code of a block and see whether all of it passes the check. */
  method RewriteBlock(pending: Renames, code: seq<Instr>) returns (fine: bool, out: seq<Instr>)
    ensures CoalescedBlock(pending, code, out)
    ensures fine <==> Passes(out)
  {
    fine, out := true, [];
    for k := 0 to |code|
      invariant |out| == k && forall h: nat | h < k :: out[h] == Coalesced(pending, code[h])
      invariant fine <==> forall h: nat | h < k :: PassesCheck(out[h])
    {
      var i := code[k];
      var j := i.(dst := Rep(pending, i.dst), src1 := Rep(pending, i.src1), src2 := Rep(pending, i.src2));
      if IsIrMove(j) && j.dst != 0 && j.src1 != 0 && j.dst == j.src1 { j := Instr(Nop, 0, 0, 0, j.imm); }
      fine := fine && PassesCheck(j);
      out := out + [j];
    }
  }

  method RewriteCode(pending: Renames, p: Program) returns (fine: bool, q: Program)
    requires p.Valid()
    ensures q.Valid() && CoalescedCode(pending, p, q)
    ensures fine <==> forall b: nat | b < |q.code| :: Passes(q.code[b])
  {
    hide Cfg.Valid, Passes, CoalescedBlock;
    fine := true;
    var code: seq<seq<Instr>> := [];
    for b := 0 to |p.code|
      invariant |code| == b
      invariant forall a: nat | a < b :: CoalescedBlock(pending, p.code[a], code[a])
      invariant fine <==> forall a: nat | a < b :: Passes(code[a])
    {
      var ok, block := RewriteBlock(pending, p.code[b]);
      fine := fine && ok;
      code := code + [block];
    }
    q := Program(code, p.g);
  }

  // Counting moves

  function MovesIn(code: seq<Instr>): nat {
    if code == [] then 0 else MovesIn(code[1..]) + if code[0].op == Move then 1 else 0
  }

  function Moves(code: seq<seq<Instr>>): nat {
    if code == [] then 0 else Moves(code[1..]) + MovesIn(code[0])
  }

  lemma {:induction false} MovesInFall(pending: Renames, code: seq<Instr>, now: seq<Instr>)
    requires CoalescedBlock(pending, code, now)
    ensures MovesIn(now) <= MovesIn(code)
    ensures (exists k: nat :: k < |code| && code[k].op == Move && now[k].op != Move) ==> MovesIn(now) < MovesIn(code)
  {
    if code != [] {
      MovesInFall(pending, code[1..], now[1..]);
      if k: nat :| k < |code| && code[k].op == Move && now[k].op != Move {
        if k > 0 { assert code[1..][k - 1].op == Move && now[1..][k - 1].op != Move; }
      }
    }
  }

  /** Some move of block `b` is gone. */
  ghost predicate MoveGone(code: seq<seq<Instr>>, now: seq<seq<Instr>>, b: nat) {
    b < |code| && b < |now| &&
        exists k: nat :: k < |code[b]| && k < |now[b]| && code[b][k].op == Move && now[b][k].op != Move
  }

  lemma {:induction false} MovesFall(pending: Renames, code: seq<seq<Instr>>, now: seq<seq<Instr>>)
    requires |now| == |code| && forall b: nat | b < |code| :: CoalescedBlock(pending, code[b], now[b])
    ensures Moves(now) <= Moves(code)
    ensures (exists b: nat :: MoveGone(code, now, b)) ==> Moves(now) < Moves(code)
  {
    if code != [] {
      MovesInFall(pending, code[0], now[0]);
      MovesFall(pending, code[1..], now[1..]);
      if b: nat :| MoveGone(code, now, b) {
        if b > 0 { assert MoveGone(code[1..], now[1..], b - 1); }
      }
    }
  }

  // The liveout sets

  function Image(pending: Renames, s: set<nat>): set<nat> {
    set v | v in s :: Rep(pending, v)
  }

  /** Renamed so far: those of `done`. */
  function PartRep(pending: Renames, done: set<nat>, v: nat): nat {
    if v in done then Rep(pending, v) else v
  }

  ghost predicate PartImage(pending: Renames, done: set<nat>, was: set<nat>, now: set<nat>) {
    forall x :: x in now <==> exists v :: v in was && PartRep(pending, done, v) == x
  }

  lemma MoveOne(n: nat, c: Context, pending: Renames, done: set<nat>, s: nat, was: set<nat>, now: set<nat>,
                next: set<nat>)
    requires Settled(n, c, pending) && done <= pending.Keys && s in pending && s !in done
    requires PartImage(pending, done, was, now) && next == if s in now then now - {s} + {pending[s]} else now
    ensures PartImage(pending, done + {s}, was, next)
  {
    forall x ensures x in next <==> exists v :: v in was && PartRep(pending, done + {s}, v) == x {
      if x in next {
        if x in now && x != s {
          var v :| v in was && PartRep(pending, done, v) == x;
          assert PartRep(pending, done + {s}, v) == x;
        } else {
          MovedFrom(n, c, pending, done, s, was, now, x);
        }
      }
      if v :| v in was && PartRep(pending, done + {s}, v) == x {
        assert PartRep(pending, done, v) in now;
        if v != s && x == s { assert pending[s] == s; }
      }
    }
  }

  lemma MovedFrom(n: nat, c: Context, pending: Renames, done: set<nat>, s: nat, was: set<nat>, now: set<nat>, x: nat)
    requires Settled(n, c, pending) && done <= pending.Keys && s in pending && s !in done && s in now && x == pending[s]
    requires PartImage(pending, done, was, now)
    ensures exists v :: v in was && PartRep(pending, done + {s}, v) == x
  {
    var v :| v in was && PartRep(pending, done, v) == s;
    assert PartRep(pending, done + {s}, v) == x;
  }

  /** Rename the members of every liveout set, one renamed live range after the other. */
  method MigrateLiveouts(liveout: array<set<nat>>, pending: Renames, ghost n: nat, ghost c: Context)
    requires Settled(n, c, pending)
    modifies liveout
    ensures forall b | 0 <= b < liveout.Length :: liveout[b] == Image(pending, old(liveout[b]))
  {
    hide Settled, PartImage;
    var todo := pending.Keys;
    ghost var was := liveout[..];
    forall b | 0 <= b < liveout.Length { StartImage(pending, was[b]); }
    while todo != {}
      invariant todo <= pending.Keys
      invariant forall b | 0 <= b < liveout.Length :: PartImage(pending, pending.Keys - todo, was[b], liveout[b])
    {
      var s := AnyOf(todo);
      ghost var done := pending.Keys - todo;
      ghost var before := liveout[..];
      for b := 0 to liveout.Length
        invariant forall a | 0 <= a < liveout.Length ::
            liveout[a] == if a < b && s in before[a] then before[a] - {s} + {pending[s]} else before[a]
      {
        if s in liveout[b] { liveout[b] := liveout[b] - {s} + {pending[s]}; }
      }
      forall b | 0 <= b < liveout.Length ensures PartImage(pending, done + {s}, was[b], liveout[b]) {
        MoveOne(n, c, pending, done, s, was[b], before[b], liveout[b]);
      }
      todo := todo - {s};
      assert done + {s} == pending.Keys - todo;
    }
    forall b | 0 <= b < liveout.Length
      ensures liveout[b] == Image(pending, was[b])
    {
      WholeImage(pending, was[b], liveout[b]);
    }
  }

  lemma StartImage(pending: Renames, was: set<nat>)
    ensures PartImage(pending, pending.Keys - pending.Keys, was, was)
  {
    forall x | x in was ensures exists v :: v in was && PartRep(pending, pending.Keys - pending.Keys, v) == x {
      assert PartRep(pending, pending.Keys - pending.Keys, x) == x;
    }
  }

  lemma WholeImage(pending: Renames, was: set<nat>, now: set<nat>)
    requires PartImage(pending, pending.Keys - {}, was, now)
    ensures now == Image(pending, was)
  {
    forall x ensures x in now <==> x in Image(pending, was) {
      if v :| v in was && Rep(pending, v) == x { assert PartRep(pending, pending.Keys - {}, v) == x; }
    }
  }

  /** Renaming and then going backwards finds no more than going backwards and then renaming. */
  lemma {:induction false} LiveImage(p: Program, q: Program, pending: Renames, out: seq<set<nat>>, now: seq<set<nat>>,
                                     b: nat, k: nat)
    requires CoalescedCode(pending, p, q) && |out| == |now| == |p.code| && b < |p.code| && k <= |p.code[b]|
    requires now[b] == Image(pending, out[b]) && 0 !in pending && forall v | v in pending :: pending[v] != 0
    ensures LiveAt(q, now, b, k) <= Image(pending, LiveAt(p, out, b, k))
    decreases |p.code[b]| - k
  {
    hide Coalesced, Image, Backwards;
    if k < |p.code[b]| {
      LiveImage(p, q, pending, out, now, b, k + 1);
      BackwardsImage(pending, p.code[b][k], LiveAt(p, out, b, k + 1), LiveAt(q, now, b, k + 1));
    }
  }

  lemma BackwardsImage(pending: Renames, i: Instr, after: set<nat>, after': set<nat>)
    requires after' <= Image(pending, after) && 0 !in pending && forall v | v in pending :: pending[v] != 0
    ensures Backwards(Coalesced(pending, i), after') <= Image(pending, Backwards(i, after))
  {
    hide Image;
    var j := Coalesced(pending, i);
    forall x | x in Backwards(j, after') ensures x in Image(pending, Backwards(i, after)) {
      BackwardsMember(pending, i, after, after', x);
    }
  }

  lemma BackwardsMember(pending: Renames, i: Instr, after: set<nat>, after': set<nat>, x: nat)
    requires after' <= Image(pending, after) && 0 !in pending
      && (forall v | v in pending :: pending[v] != 0) && x in Backwards(Coalesced(pending, i), after')
    ensures x in Image(pending, Backwards(i, after))
  {
    var before := Backwards(i, after);
    if x == Rep(pending, i.src1) && i.src1 != 0 {
      assert i.src1 in before;
    } else if x == Rep(pending, i.src2) && i.src2 != 0 {
      assert i.src2 in before;
    } else {
      assert x in after';
      var v :| v in after && Rep(pending, v) == x;
      assert v in before;
    }
  }

  /** Liveout sets that cover the program, renamed, cover the renamed program. */
  lemma MigratedCovers(p: Program, q: Program, pending: Renames, out: seq<set<nat>>, now: seq<set<nat>>)
    requires CoalescedCode(pending, p, q) && Covers(p, out)
      && |now| == |out| && 0 !in pending && (forall v | v in pending :: pending[v] != 0)
    requires forall b: nat | b < |out| :: now[b] == Image(pending, out[b])
    ensures Covers(q, now)
  {
    hide LiveAt, Image;
    forall b: nat, s: nat | b < |q.code| && s < |q.code| && q.g.Edge(b, s) ensures LiveAt(q, now, s, 0) <= now[b] {
      LiveImage(p, q, pending, out, now, s, 0);
      ImageMonotone(pending, LiveAt(p, out, s, 0), out[b]);
    }
  }

  lemma ImageMonotone(pending: Renames, s: set<nat>, t: set<nat>)
    requires s <= t
    ensures Image(pending, s) <= Image(pending, t)
  {
  }
}
