/** Live ranges in place of SSA names (ssa.c:1073-1096, 1178-1227). */
module LeavingSsa {
  import opened Cfgs
  import opened Ir
  import opened SsaNames
  import opened RenameState
  import opened Components
  import opened LiveRanges
  import opened SsaRoundTrip

  /** A phi function of names, from its vreg and subscripts. */
  function PhiOf(count: nat, v: nat, x: int, args: seq<int>): Phi {
    Phi(Key(count, v, x), seq(|args|, j requires 0 <= j < |args| => Key(count, v, args[j])))
  }

  ghost predicate HasOperands(count: nat, keys: set<Name>, i: Instr, u: Subs) {
    && (i.dst != 0 ==> Key(count, i.dst, u.dst) in keys)
    && (i.src1 != 0 ==> Key(count, i.src1, u.src1) in keys)
    && (i.src2 != 0 ==> Key(count, i.src2, u.src2) in keys)
  }

  ghost predicate HasPhi(keys: set<Name>, phi: Phi) {
    phi.dst in keys && forall a | a in phi.args :: a in keys
  }

  ghost predicate IsPhiOf(f: Func, s: Renaming, count: nat, phi: Phi, d: nat, k: nat)
    requires Shaped(f, s)
  {
    d < |f.phis| && k < |f.phis[d]| && phi == PhiOf(count, f.phis[d][k], s.names.phi[d][k], s.args[d][k])
  }

  ghost predicate ListsPhi(f: Func, s: Renaming, count: nat, phis: seq<Phi>, d: nat, k: nat)
    requires Shaped(f, s)
  {
    exists i :: 0 <= i < |phis| && IsPhiOf(f, s, count, phis[i], d, k)
  }

  ghost predicate SomePhi(f: Func, s: Renaming, count: nat, phi: Phi)
    requires Shaped(f, s)
  {
    exists d: nat, k: nat :: IsPhiOf(f, s, count, phi, d, k)
  }

  /** The names of the first `b` blocks, `k` phi functions and `i` instructions of the next are in `keys` and `phis`. */
  ghost predicate Collected(f: Func, s: Renaming, count: nat, keys: set<Name>, phis: seq<Phi>, n: nat, k: nat, i: nat)
    requires Shaped(f, s)
  {
    && (forall d: nat, h: nat | d < |f.phis| && h < |f.phis[d]| && (d < n || (d == n && h < k)) ::
        ListsPhi(f, s, count, phis, d, h))
    && (forall j | 0 <= j < |phis| :: HasPhi(keys, phis[j]) && SomePhi(f, s, count, phis[j]))
    && (forall b: nat, h: nat | b < |f.p.code| && h < |f.p.code[b]| && (b < n || (b == n && h < i)) ::
          HasOperands(count, keys, f.p.code[b][h], s.names.code[b][h]))
  }

  lemma CollectPhi(f: Func, s: Renaming, count: nat, keys: set<Name>, phis: seq<Phi>, n: nat, k: nat, keys': set<Name>,
                   phi: Phi)
    requires Shaped(f, s) && Collected(f, s, count, keys, phis, n, k, 0)
    requires keys <= keys' && IsPhiOf(f, s, count, phi, n, k) && HasPhi(keys', phi)
    ensures Collected(f, s, count, keys', phis + [phi], n, k + 1, 0)
  {
    hide Cfg.Valid, Vregs, IsPhiOf;
    var all := phis + [phi];
    forall d: nat, h: nat | d < |f.phis| && h < |f.phis[d]| && (d < n || (d == n && h < k + 1))
      ensures ListsPhi(f, s, count, all, d, h)
    {
      if d == n && h == k {
        assert IsPhiOf(f, s, count, all[|phis|], d, h);
      } else {
        assert ListsPhi(f, s, count, phis, d, h);
        var j :| 0 <= j < |phis| && IsPhiOf(f, s, count, phis[j], d, h);
        assert all[j] == phis[j];
      }
    }
    forall j | 0 <= j < |all| ensures HasPhi(keys', all[j]) && SomePhi(f, s, count, all[j]) {
      if j < |phis| {
        assert HasPhi(keys, phis[j]);
      }
    }
    forall b: nat, h: nat | b < |f.p.code| && h < |f.p.code[b]| && b < n
      ensures HasOperands(count, keys', f.p.code[b][h], s.names.code[b][h])
    {
      assert HasOperands(count, keys, f.p.code[b][h], s.names.code[b][h]);
    }
  }

  lemma CollectInstruction(f: Func, s: Renaming, count: nat, keys: set<Name>, phis: seq<Phi>, n: nat, k: nat, i: nat,
                           keys': set<Name>)
    requires Shaped(f, s) && n < |f.p.code| && i < |f.p.code[n]| && Collected(f, s, count, keys, phis, n, k, i)
    requires keys <= keys' && HasOperands(count, keys', f.p.code[n][i], s.names.code[n][i])
    ensures Collected(f, s, count, keys', phis, n, k, i + 1)
  {
    hide Cfg.Valid, Vregs, IsPhiOf, ListsPhi, SomePhi;
    forall j | 0 <= j < |phis| ensures HasPhi(keys', phis[j]) { assert HasPhi(keys, phis[j]); }
    forall b: nat, h: nat | b < |f.p.code| && h < |f.p.code[b]| && (b < n || (b == n && h < i))
      ensures HasOperands(count, keys', f.p.code[b][h], s.names.code[b][h])
    {
      assert HasOperands(count, keys, f.p.code[b][h], s.names.code[b][h]);
    }
  }

  method AddName(keys: set<Name>, count: nat, v: nat, x: int) returns (r: set<Name>)
    ensures r == if v == 0 then keys else keys + {Key(count, v, x)}
  {
    r := keys;
    if v != 0 { r := r + {Key(count, v, x)}; }
  }

  /** All names of the function, and its phi functions in terms of them. */
  method CollectNames(f: Func, ghost s: Renaming, count: nat, phiSubs: seq<seq<int>>, codeSubs: seq<seq<Subs>>,
                      phiArgs: seq<seq<seq<int>>>)
    returns (keys: set<Name>, phis: seq<Phi>)
    requires Shaped(f, s) && s.names == Names(phiSubs, codeSubs) && s.args == phiArgs
    ensures Collected(f, s, count, keys, phis, |f.phis|, 0, 0)
  {
    hide Cfg.Valid, Vregs, Collected, IsPhiOf, HasPhi;
    keys, phis := {}, [];
    NothingCollected(f, s, count);
    for b := 0 to |f.p.code|
      invariant Collected(f, s, count, keys, phis, b, 0, 0)
    {
      for k := 0 to |f.phis[b]|
        invariant Collected(f, s, count, keys, phis, b, k, 0)
      {
        ghost var was := keys;
        var phi := PhiOf(count, f.phis[b][k], phiSubs[b][k], phiArgs[b][k]);
        keys := AddName(keys, count, f.phis[b][k], phiSubs[b][k]);
        for j := 0 to |phiArgs[b][k]|
          invariant was <= keys && phi.dst in keys && forall h | 0 <= h < j :: phi.args[h] in keys
        {
          keys := AddName(keys, count, f.phis[b][k], phiArgs[b][k][j]);
        }
        PhiIsHere(f, s, count, keys, phi, b, k);
        CollectPhi(f, s, count, was, phis, b, k, keys, phi);
        phis := phis + [phi];
      }
      for i := 0 to |f.p.code[b]|
        invariant Collected(f, s, count, keys, phis, b, |f.phis[b]|, i)
      {
        ghost var was := keys;
        keys := AddName(keys, count, f.p.code[b][i].dst, codeSubs[b][i].dst);
        keys := AddName(keys, count, f.p.code[b][i].src1, codeSubs[b][i].src1);
        keys := AddName(keys, count, f.p.code[b][i].src2, codeSubs[b][i].src2);
        CollectInstruction(f, s, count, was, phis, b, |f.phis[b]|, i, keys);
      }
      BlockCollected(f, s, count, keys, phis, b);
    }
  }

  lemma NothingCollected(f: Func, s: Renaming, count: nat)
    requires Shaped(f, s)
    ensures Collected(f, s, count, {}, [], 0, 0, 0)
  {
  }

  lemma PhiIsHere(f: Func, s: Renaming, count: nat, keys: set<Name>, phi: Phi, b: nat, k: nat)
    requires Shaped(f, s) && b < |f.phis| && k < |f.phis[b]|
    requires phi == PhiOf(count, f.phis[b][k], s.names.phi[b][k], s.args[b][k])
    requires phi.dst in keys && forall h | 0 <= h < |phi.args| :: phi.args[h] in keys
    ensures IsPhiOf(f, s, count, phi, b, k) && HasPhi(keys, phi)
  {
    hide Cfg.Valid, Vregs;
  }

  lemma BlockCollected(f: Func, s: Renaming, count: nat, keys: set<Name>, phis: seq<Phi>, b: nat)
    requires Shaped(f, s) && b < |f.phis| && Collected(f, s, count, keys, phis, b, |f.phis[b]|, |f.p.code[b]|)
    ensures Collected(f, s, count, keys, phis, b + 1, 0, 0)
  {
    hide Cfg.Valid, Vregs, ListsPhi, SomePhi, HasPhi, HasOperands;
  }

  // Live ranges group names

  ghost predicate NameOf(count: nat, k: Name, v: nat) {
    exists x :: k == Key(count, v, x)
  }

  lemma NameHasOneVreg(count: nat, k: Name, v: nat, w: nat)
    requires v <= count && w <= count && NameOf(count, k, v) && NameOf(count, k, w)
    ensures v == w
  {
    var x :| k == Key(count, v, x);
    var y :| k == Key(count, w, y);
    KeyInjective(count, v, x, w, y);
  }

  lemma PhiHasOneVreg(f: Func, s: Renaming, count: nat, phi: Phi, a: Name, b: Name, v: nat)
    requires Shaped(f, s) && Vregs(f, count + 1) && SomePhi(f, s, count, phi) && phi.Has(a) && phi.Has(b)
    requires v <= count && NameOf(count, a, v)
    ensures NameOf(count, b, v)
  {
    hide Cfg.Valid, PhiOf, NameOf, Key;
    var d: nat, k: nat :| IsPhiOf(f, s, count, phi, d, k);
    var w := f.phis[d][k];
    PhiMember(count, w, s.names.phi[d][k], s.args[d][k], a);
    PhiMember(count, w, s.names.phi[d][k], s.args[d][k], b);
    NameHasOneVreg(count, a, v, w);
  }

  lemma PhiMember(count: nat, v: nat, x: int, args: seq<int>, a: Name)
    requires PhiOf(count, v, x, args).Has(a)
    ensures NameOf(count, a, v)
  {
    var phi := PhiOf(count, v, x, args);
    if a in phi.args {
      var j :| 0 <= j < |phi.args| && phi.args[j] == a;
      assert a == Key(count, v, args[j]);
    }
  }

  /** Names connected by phi functions belong to the same vreg. */
  lemma ConnectedShareVreg(f: Func, s: Renaming, count: nat, keys: set<Name>, phis: seq<Phi>, a: Name, b: Name, v: nat)
    requires Shaped(f, s) && Vregs(f, count + 1) && Collected(f, s, count, keys, phis, |f.phis|, 0, 0)
    requires Connected(phis, |phis|, a, b) && a in keys && v <= count && NameOf(count, a, v)
    ensures NameOf(count, b, v)
  {
    hide Fits, NameOf, SomePhi, ListsPhi, Connected;
    var same := set k | k in keys && NameOf(count, k, v);
    forall x, y | x in same && Linked(phis, |phis|, x, y) ensures y in same {
      var i :| 0 <= i < |phis| && phis[i].Has(x) && phis[i].Has(y);
      PhiHasOneVreg(f, s, count, phis[i], x, y, v);
      assert HasPhi(keys, phis[i]);
    }
    ConnectedIn(phis, |phis|, a, b, same);
  }

  /** What MakeLiveRanges returns, seen from the names. */
  ghost predicate RangesOf(keys: set<Name>, phis: seq<Phi>, lr: map<Name, nat>) {
    && (forall a :: a in lr <==> a in keys)
    && (forall a | a in keys :: 0 < lr[a])
    && (forall a, b | a in keys && b in keys :: lr[a] == lr[b] <==> Connected(phis, |phis|, a, b))
  }

  lemma RangesGroup(f: Func, s: Renaming, count: nat, keys: set<Name>, phis: seq<Phi>, lr: map<Name, nat>)
    requires Shaped(f, s) && Vregs(f, count + 1)
      && Collected(f, s, count, keys, phis, |f.phis|, 0, 0) && RangesOf(keys, phis, lr)
    ensures Grouped(f, s, Ranges(lr, count))
  {
    hide Connected, ListsPhi, SomePhi, NameOf, Cfg.Valid;
    var r := Ranges(lr, count);
    forall b, i | 0 <= b < |f.p.code| && 0 <= i < |f.p.code[b]|
      ensures KnowsOperands(r, f.p.code[b][i], s.names.code[b][i])
    {
      assert HasOperands(count, keys, f.p.code[b][i], s.names.code[b][i]);
    }
    forall d, k, j | 0 <= d < |f.phis| && 0 <= k < |f.phis[d]| && 0 <= j < |s.args[d][k]|
      ensures Joined(r, f.phis[d][k], s.names.phi[d][k], s.args[d][k][j])
    {
      PhiJoins(f, s, count, keys, phis, lr, d, k, j);
    }
    forall v: nat, x, w: nat, y | r.Knows(v, x) && r.Knows(w, y) && r.Of(v, x) == r.Of(w, y) ensures v == w {
      RangeHasOneVreg(f, s, count, keys, phis, lr, v, x, w, y);
    }
  }

  lemma PhiJoins(f: Func, s: Renaming, count: nat, keys: set<Name>, phis: seq<Phi>, lr: map<Name, nat>, d: nat, k: nat,
                 j: nat)
    requires Shaped(f, s) && Vregs(f, count + 1)
      && Collected(f, s, count, keys, phis, |f.phis|, 0, 0) && RangesOf(keys, phis, lr)
    requires d < |f.phis| && k < |f.phis[d]| && j < |s.args[d][k]|
    ensures Joined(Ranges(lr, count), f.phis[d][k], s.names.phi[d][k], s.args[d][k][j])
  {
    hide Connected, SomePhi, Cfg.Valid;
    assert ListsPhi(f, s, count, phis, d, k);
    var i :| 0 <= i < |phis| && IsPhiOf(f, s, count, phis[i], d, k);
    var a, b := Key(count, f.phis[d][k], s.names.phi[d][k]), Key(count, f.phis[d][k], s.args[d][k][j]);
    assert HasPhi(keys, phis[i]);
    assert phis[i].args[j] == b;
    assert phis[i].Has(a) && phis[i].Has(b);
    assert Linked(phis, |phis|, a, b);
    LinkedConnects(phis, |phis|, a, b);
  }

  lemma RangeHasOneVreg(f: Func, s: Renaming, count: nat, keys: set<Name>, phis: seq<Phi>, lr: map<Name, nat>, v: nat,
                        x: int, w: nat, y: int)
    requires Shaped(f, s) && Vregs(f, count + 1)
      && Collected(f, s, count, keys, phis, |f.phis|, 0, 0) && RangesOf(keys, phis, lr)
    requires var r := Ranges(lr, count); r.Knows(v, x) && r.Knows(w, y) && r.Of(v, x) == r.Of(w, y)
    ensures v == w
  {
    hide Connected, SomePhi, Cfg.Valid, Collected, Shaped;
    var a, b := Key(count, v, x), Key(count, w, y);
    assert Connected(phis, |phis|, a, b);
    assert NameOf(count, a, v) && NameOf(count, b, w);
    ConnectedShareVreg(f, s, count, keys, phis, a, b, v);
    NameHasOneVreg(count, b, v, w);
  }

  // The code with live ranges

  method RangeOfOperand(r: Ranges, v: nat, x: int) returns (n: nat)
    requires v == 0 || r.Knows(v, x)
    ensures n == r.Of(v, x)
  {
    n := 0;
    if v != 0 { n := r.lr[Key(r.count, v, x)]; }
  }

  method AssignBlock(code: seq<Instr>, subs: seq<Subs>, r: Ranges) returns (out: seq<Instr>)
    requires |subs| == |code| && forall i | 0 <= i < |code| :: KnowsOperands(r, code[i], subs[i])
    ensures |out| == |code| && forall i | 0 <= i < |code| :: out[i] == WithRanges(r, code[i], subs[i])
  {
    out := [];
    for i := 0 to |code|
      invariant |out| == i && forall j | 0 <= j < i :: out[j] == WithRanges(r, code[j], subs[j])
    {
      assert KnowsOperands(r, code[i], subs[i]);
      var dst := RangeOfOperand(r, code[i].dst, subs[i].dst);
      var src1 := RangeOfOperand(r, code[i].src1, subs[i].src1);
      var src2 := RangeOfOperand(r, code[i].src2, subs[i].src2);
      out := out + [code[i].(dst := dst, src1 := src1, src2 := src2)];
    }
  }

  method AssignRanges(f: Func, ghost s: Renaming, codeSubs: seq<seq<Subs>>, r: Ranges) returns (q: Program)
    requires Shaped(f, s) && s.names.code == codeSubs && Grouped(f, s, r)
    ensures OutOfSsa(f, s, r, q) && q.Valid()
  {
    hide Cfg.Valid, Vregs;
    var code: seq<seq<Instr>> := [];
    for b := 0 to |f.p.code|
      invariant |code| == b
      invariant forall c | 0 <= c < b :: |code[c]| == |f.p.code[c]|
      invariant forall c, i | 0 <= c < b && 0 <= i < |code[c]| ::
                code[c][i] == WithRanges(r, f.p.code[c][i], codeSubs[c][i])
    {
      var out := AssignBlock(f.p.code[b], codeSubs[b], r);
      code := code + [out];
    }
    q := Program(code, f.p.g);
  }
}
