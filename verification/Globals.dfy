/** Which vregs need phi functions and where they are defined (make_globals_and_var_blocks, ssa.c:715-748). A vreg needs
    them if some block uses it before defining it. */
module Globals {
  import opened Ir
  import opened LocalUse

  ghost predicate BoundedBy(p: Program, count: nat, b: nat, k: nat)
    requires b < |p.code| && k <= |p.code[b]|
  {
    forall i | 0 <= i < k :: p.code[b][i].dst <= count && p.code[b][i].src1 <= count && p.code[b][i].src2 <= count
  }

  function Max(a: nat, b: nat): nat {
    if a < b then b else a
  }

  ghost predicate Mentions(p: Program, v: nat, b: nat, k: nat) {
    b < |p.code| && k < |p.code[b]| && (p.code[b][k].dst == v || p.code[b][k].src1 == v || p.code[b][k].src2 == v)
  }

  /** The largest vreg in the code, or 0. */
  method MakeVregCount(p: Program) returns (count: nat)
    ensures forall b | 0 <= b < |p.code| :: BoundedBy(p, count, b, |p.code[b]|)
    ensures count == 0 || exists b: nat, k: nat :: Mentions(p, count, b, k)
  {
    count := 0;
    for b := 0 to |p.code|
      invariant forall c | 0 <= c < b :: BoundedBy(p, count, c, |p.code[c]|)
      invariant count == 0 || exists c: nat, k: nat :: Mentions(p, count, c, k)
    {
      for k := 0 to |p.code[b]|
        invariant count == 0 || exists c: nat, h: nat :: Mentions(p, count, c, h)
        invariant BoundedBy(p, count, b, k) && forall c | 0 <= c < b :: BoundedBy(p, count, c, |p.code[c]|)
      {
        var i := p.code[b][k];
        ghost var was := count;
        count := Max(Max(Max(count, i.src1), i.src2), i.dst);
        assert count != was ==> Mentions(p, count, b, k);
      }
    }
  }

  ghost predicate ExposedIn(p: Program, n: nat, v: nat)
    requires n <= |p.code|
  {
    exists b :: 0 <= b < n && Exposed(p, b, v)
  }

  /** `globals` and `varBlocks` after the first `n` blocks and `k` instructions of the next. */
  ghost predicate GlobalsSoFar(p: Program, count: nat, globals: set<nat>, varBlocks: seq<set<nat>>, n: nat, k: nat)
    requires n <= |p.code| && k <= if n < |p.code| then |p.code[n]| else 0
  {
    && |varBlocks| == count + 1
    && (forall v: nat :: v in globals <==> ExposedIn(p, n, v) || (k > 0 && ExposedBefore(p, n, k, v)))
    && (forall v: nat, b: nat | 0 < v <= count ::
          b in varBlocks[v] <==> (b < n && Writes(p, b, v)) || (b == n && k > 0 && DefinedBefore(p, n, k, v)))
  }

  /** What the instruction adds to a set of killed or written vregs. */
  lemma InstructionGlobals(p: Program, count: nat, globals: set<nat>, varBlocks: seq<set<nat>>, varkill: set<nat>,
                           n: nat, k: nat, globals': set<nat>, varBlocks': seq<set<nat>>)
    requires n < |p.code| && k < |p.code[n]| && GlobalsSoFar(p, count, globals, varBlocks, n, k)
    requires forall v: nat :: v in varkill <==> v != 0 && DefinedBefore(p, n, k, v)
    requires p.code[n][k].dst <= count
    requires forall v: nat :: v in globals' <==> v in globals || (Uses(p.code[n][k], v) && v !in varkill)
    requires var d := p.code[n][k].dst; varBlocks' == if d == 0 then varBlocks else varBlocks[d := varBlocks[d] + {n}]
    ensures GlobalsSoFar(p, count, globals', varBlocks', n, k + 1)
  {
    hide Exposed, ExposedBefore, ExposedIn;
    forall v: nat ensures v in globals' <==> ExposedIn(p, n, v) || ExposedBefore(p, n, k + 1, v) {
      ExposedNext(p, n, k, v);
      NothingYet(p, n, v);
    }
    forall v: nat, b: nat | 0 < v <= count
      ensures b in varBlocks'[v] <==> (b < n && Writes(p, b, v)) || (b == n && DefinedBefore(p, n, k + 1, v))
    {
      DefinedBeforeNext(p, n, k, v);
      NothingYet(p, n, v);
    }
  }

  lemma BlockGlobals(p: Program, count: nat, globals: set<nat>, varBlocks: seq<set<nat>>, n: nat)
    requires n < |p.code| && GlobalsSoFar(p, count, globals, varBlocks, n, |p.code[n]|)
    ensures GlobalsSoFar(p, count, globals, varBlocks, n + 1, 0)
  {
    hide Exposed, ExposedBefore, DefinedBefore;
    forall v: nat ensures v in globals <==> ExposedIn(p, n + 1, v) {
      NothingYet(p, n, v);
      ExposedIs(p, n, v);
      ExposedInNext(p, n, v);
    }
    forall v: nat, b: nat | 0 < v <= count
      ensures b in varBlocks[v] <==> b < n + 1 && Writes(p, b, v)
    {
      NothingYet(p, n, v);
    }
  }

  lemma ExposedInNext(p: Program, n: nat, v: nat)
    requires n < |p.code|
    ensures ExposedIn(p, n + 1, v) <==> ExposedIn(p, n, v) || Exposed(p, n, v)
  {
    hide Exposed;
    if ExposedIn(p, n, v) {
      var b :| 0 <= b < n && Exposed(p, b, v);
      assert 0 <= b < n + 1;
    }
  }

  /** The vregs used in some block before being defined there, and the blocks that define each vreg. */
  method MakeGlobalsAndVarBlocks(p: Program, count: nat) returns (globals: set<nat>, varBlocks: array<set<nat>>)
    requires forall b | 0 <= b < |p.code| :: BoundedBy(p, count, b, |p.code[b]|)
    ensures fresh(varBlocks) && varBlocks.Length == count + 1
    ensures forall v: nat :: v in globals <==> IsGlobal(p, v)
    ensures forall v: nat, b: nat | 0 < v <= count :: b in varBlocks[v] <==> b < |p.code| && Writes(p, b, v)
  {
    hide Exposed, ExposedBefore, DefinedBefore, GlobalsSoFar;
    varBlocks := new set<nat>[count + 1](_ => {});
    globals := {};
    StartGlobals(p, count, varBlocks[..]);
    for n := 0 to |p.code|
      invariant GlobalsSoFar(p, count, globals, varBlocks[..], n, 0)
    {
      var varkill: set<nat> := {};
      forall v: nat { NothingYet(p, n, v); }
      for k := 0 to |p.code[n]|
        invariant GlobalsSoFar(p, count, globals, varBlocks[..], n, k)
        invariant forall v: nat :: v in varkill <==> v != 0 && DefinedBefore(p, n, k, v)
      {
        ghost var globals0, varBlocks0, varkill0 := globals, varBlocks[..], varkill;
        var i := p.code[n][k];
        assert BoundedBy(p, count, n, |p.code[n]|);
        if i.src1 != 0 && i.src1 !in varkill { globals := globals + {i.src1}; }
        if i.src2 != 0 && i.src2 !in varkill { globals := globals + {i.src2}; }
        if i.dst != 0 {
          varkill := varkill + {i.dst};
          varBlocks[i.dst] := varBlocks[i.dst] + {n};
        }
        forall v: nat { DefinedBeforeNext(p, n, k, v); }
        InstructionGlobals(p, count, globals0, varBlocks0, varkill0, n, k, globals, varBlocks[..]);
      }
      BlockGlobals(p, count, globals, varBlocks[..], n);
    }
    EndGlobals(p, count, globals, varBlocks[..]);
  }

  lemma StartGlobals(p: Program, count: nat, varBlocks: seq<set<nat>>)
    requires |varBlocks| == count + 1 && forall v | 0 <= v <= count :: varBlocks[v] == {}
    ensures GlobalsSoFar(p, count, {}, varBlocks, 0, 0)
  {
  }

  lemma EndGlobals(p: Program, count: nat, globals: set<nat>, varBlocks: seq<set<nat>>)
    requires GlobalsSoFar(p, count, globals, varBlocks, |p.code|, 0)
    ensures |varBlocks| == count + 1
    ensures forall v: nat :: v in globals <==> IsGlobal(p, v)
    ensures forall v: nat, b: nat | 0 < v <= count :: b in varBlocks[v] <==> b < |p.code| && Writes(p, b, v)
  {
    hide Exposed, DefinedBefore;
  }
}
