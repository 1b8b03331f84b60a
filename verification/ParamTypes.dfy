/** Types of parameters and the scalars inside structs (types.c:424-504). */
module ParamTypes {
  import opened Basics

  datatype Type =
    | Char | Short | Int | Long | Float | Double | LongDouble | Ptr | Enum
    | Array(elem: Type, count: nat)
    | Struct(members: seq<Member>, size: nat)

  datatype Member = Member(offset: nat, t: Type)

  /** A scalar inside a struct or union, at its offset from the start. */
  datatype Scalar = Scalar(t: Type, offset: nat)

  function SizeOf(t: Type): nat {
    match t
    case Char => 1
    case Short => 2
    case Int | Float | Enum => 4
    case Long | Double | Ptr => 8
    case LongDouble => 16
    case Array(e, n) => n * SizeOf(e)
    case Struct(_, size) => size
  }

  function AlignOf(t: Type): nat
    decreases t, if t.Struct? then |t.members| + 1 else 0
  {
    match t
    case Char => 1
    case Short => 2
    case Int | Float | Enum => 4
    case Long | Double | Ptr => 8
    case LongDouble => 16
    case Array(e, _) => AlignOf(e)
    case Struct(ms, _) => AlignOfMembers(t, |ms|)
  }

  /** The largest alignment of the first `k` members. */
  function AlignOfMembers(t: Type, k: nat): nat
    requires t.Struct? && k <= |t.members|
    decreases t, k
  {
    if k == 0 then 0
    else
      var a, rest := AlignOf(t.members[k - 1].t), AlignOfMembers(t, k - 1);
      if a > rest then a else rest
  }

  lemma {:induction false} AlignmentsArePowers(t: Type)
    ensures AlignOf(t) == 0 || PowerUpTo16(AlignOf(t))
    decreases t, if t.Struct? then |t.members| + 1 else 0
  {
    match t
    case Array(e, _) => AlignmentsArePowers(e);
    case Struct(ms, _) => MemberAlignmentsArePowers(t, |ms|);
    case _ =>
  }

  lemma {:induction false} MemberAlignmentsArePowers(t: Type, k: nat)
    requires t.Struct? && k <= |t.members|
    ensures AlignOfMembers(t, k) == 0 || PowerUpTo16(AlignOfMembers(t, k))
    decreases t, k
  {
    if k > 0 {
      AlignmentsArePowers(t.members[k - 1].t);
      MemberAlignmentsArePowers(t, k - 1);
    }
  }

  /** A long double is somewhere inside. */
  predicate HasLongDouble(t: Type)
    decreases t
  {
    match t
    case LongDouble => true
    case Array(e, _) => HasLongDouble(e)
    case Struct(ms, _) => exists i :: 0 <= i < |ms| && HasLongDouble(ms[i].t)
    case _ => false
  }

  /** Long doubles, and what holds one, are the only types on 16 bytes. */
  lemma {:induction false} AlignedOn16(t: Type)
    ensures AlignOf(t) == 16 <==> HasLongDouble(t)
    ensures AlignOf(t) <= 16
    decreases t, if t.Struct? then |t.members| + 1 else 0
  {
    match t
    case Array(e, _) => AlignedOn16(e);
    case Struct(ms, _) => MembersAlignedOn16(t, |ms|);
    case _ =>
  }

  lemma {:induction false} MembersAlignedOn16(t: Type, k: nat)
    requires t.Struct? && k <= |t.members|
    ensures AlignOfMembers(t, k) == 16 <==> exists i :: 0 <= i < k && HasLongDouble(t.members[i].t)
    ensures AlignOfMembers(t, k) <= 16
    decreases t, k
  {
    if k > 0 {
      AlignedOn16(t.members[k - 1].t);
      MembersAlignedOn16(t, k - 1);
    }
  }

  /** Scalars are on boundaries of their size. */
  lemma ScalarsAlignedToSize(t: Type)
    requires !t.Array? && !t.Struct?
    ensures AlignOf(t) == SizeOf(t)
    ensures SizeOf(t) == (match t case Char => 1 case Short => 2 case Int => 4 case Float => 4 case Enum => 4
                                  case LongDouble => 16 case _ => 8)
  {
  }

  predicate FitsInt(t: Type) {
    t.Char? || t.Short? || t.Int? || t.Long? || t.Ptr?
  }

  predicate IsSse(t: Type) {
    t.Float? || t.Double?
  }

  // Flattening

  /** All scalars of a type, outermost first. */
  function Flatten(t: Type, offset: nat): seq<Scalar>
    decreases t, if t.Struct? then |t.members| + 1 else 0
  {
    match t
    case Struct(ms, _) => FlattenMembers(t, |ms|, offset)
    case Array(e, n) => FlattenElements(e, n, offset)
    case _ => [Scalar(t, offset)]
  }

  function FlattenMembers(t: Type, k: nat, offset: nat): seq<Scalar>
    requires t.Struct? && k <= |t.members|
    decreases t, k
  {
    if k == 0 then []
    else FlattenMembers(t, k - 1, offset) + Flatten(t.members[k - 1].t, offset + t.members[k - 1].offset)
  }

  function FlattenElements(e: Type, n: nat, offset: nat): seq<Scalar>
    decreases e, n + 2 + if e.Struct? then |e.members| else 0
  {
    if n == 0 then [] else FlattenElements(e, n - 1, offset) + Flatten(e, offset + SizeOf(e) * (n - 1))
  }

  /** Members lie inside their structs, at any depth. How far apart they are is left open. */
  ghost predicate Laid(t: Type)
    decreases t
  {
    match t
    case Array(e, _) => Laid(e)
    case Struct(ms, size) => forall i | 0 <= i < |ms| :: Laid(ms[i].t) && ms[i].offset + SizeOf(ms[i].t) <= size
    case _ => true
  }

  /** Scalars lie inside the type. */
  lemma {:induction false} ScalarsInside(t: Type, offset: nat)
    requires Laid(t)
    ensures forall s | s in Flatten(t, offset) :: offset <= s.offset && s.offset + SizeOf(s.t) <= offset + SizeOf(t)
    decreases t, if t.Struct? then |t.members| + 1 else 0
  {
    match t
    case Struct(ms, _) => MembersInside(t, |ms|, offset);
    case Array(e, n) => ElementsInside(e, n, offset);
    case _ =>
  }

  lemma {:induction false} MembersInside(t: Type, k: nat, offset: nat)
    requires t.Struct? && k <= |t.members| && Laid(t)
    ensures forall s | s in FlattenMembers(t, k, offset) ::
            offset <= s.offset && s.offset + SizeOf(s.t) <= offset + t.size
    decreases t, k
  {
    if k > 0 {
      MembersInside(t, k - 1, offset);
      ScalarsInside(t.members[k - 1].t, offset + t.members[k - 1].offset);
    }
  }

  lemma {:induction false} ElementsInside(e: Type, n: nat, offset: nat)
    requires Laid(e)
    ensures forall s | s in FlattenElements(e, n, offset) ::
              offset <= s.offset && s.offset + SizeOf(s.t) <= offset + n * SizeOf(e)
    decreases e, n + 2 + if e.Struct? then |e.members| else 0
  {
    hide SizeOf, Laid;
    if n > 0 {
      var w := SizeOf(e);
      ElementsInside(e, n - 1, offset);
      ScalarsInside(e, offset + w * (n - 1));
      OneMore(n - 1, w);
      assert w * (n - 1) == (n - 1) * w;
    }
  }

}
