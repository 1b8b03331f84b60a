/** Uses and definitions within a block. */
module LocalUse {
  import opened Ir

  ghost predicate Uses(i: Instr, v: nat) {
    v != 0 && (i.src1 == v || i.src2 == v)
  }

  /** One of the first `k` instructions of `b` defines `v`. */
  ghost predicate DefinedBefore(p: Program, b: nat, k: nat, v: nat)
    requires b < |p.code| && k <= |p.code[b]|
  {
    exists j :: 0 <= j < k && p.code[b][j].dst == v
  }

  /** Some instruction of `b` uses `v` before any instruction of `b` defines it. */
  ghost predicate Exposed(p: Program, b: nat, v: nat)
    requires b < |p.code|
  {
    exists i :: 0 <= i < |p.code[b]| && Uses(p.code[b][i], v) && !DefinedBefore(p, b, i, v)
  }

  ghost predicate IsGlobal(p: Program, v: nat) {
    exists b :: 0 <= b < |p.code| && Exposed(p, b, v)
  }

  ghost predicate Writes(p: Program, b: nat, v: nat)
    requires b < |p.code|
  {
    DefinedBefore(p, b, |p.code[b]|, v)
  }

  lemma DefinedBeforeNext(p: Program, b: nat, i: nat, v: nat)
    requires b < |p.code| && i < |p.code[b]|
    ensures DefinedBefore(p, b, i + 1, v) <==> DefinedBefore(p, b, i, v) || p.code[b][i].dst == v
  {
    if DefinedBefore(p, b, i, v) {
      var j :| 0 <= j < i && p.code[b][j].dst == v;
      assert 0 <= j < i + 1;
    }
  }

  /** Some of the first `k` instructions of `b` uses `v` before any of them defines it. */
  ghost predicate ExposedBefore(p: Program, b: nat, k: nat, v: nat)
    requires b < |p.code| && k <= |p.code[b]|
  {
    exists i :: 0 <= i < k && Uses(p.code[b][i], v) && !DefinedBefore(p, b, i, v)
  }

  lemma ExposedNext(p: Program, b: nat, k: nat, v: nat)
    requires b < |p.code| && k < |p.code[b]|
    ensures ExposedBefore(p, b, k + 1, v) <==>
              ExposedBefore(p, b, k, v) || (Uses(p.code[b][k], v) && !DefinedBefore(p, b, k, v))
  {
    if ExposedBefore(p, b, k, v) {
      var i :| 0 <= i < k && Uses(p.code[b][i], v) && !DefinedBefore(p, b, i, v);
      assert 0 <= i < k + 1;
    }
  }

  lemma NothingYet(p: Program, b: nat, v: nat)
    requires b < |p.code|
    ensures !ExposedBefore(p, b, 0, v) && !DefinedBefore(p, b, 0, v)
  {
  }

  lemma ExposedIs(p: Program, b: nat, v: nat)
    requires b < |p.code|
    ensures Exposed(p, b, v) <==> ExposedBefore(p, b, |p.code[b]|, v)
  {
  }
}
