/** The layout of the stack frame: slots for local variables and spilled registers (codegen.c:114-190). */
module FrameSlots {
  import opened Basics

  /** An operand of an instruction. A negative stack index names slot number -stackIndex of the frame. */
  datatype Operand = Operand(stackIndex: int, size: nat, alignment: nat)

  ghost predicate Operands(ops: seq<Operand>, count: nat) {
    forall k | 0 <= k < |ops| && ops[k].stackIndex < 0 :: -ops[k].stackIndex <= count && PowerUpTo16(ops[k].alignment)
  }

  /** The largest alignment and the largest size with which the operands use a slot. */
  function MaxAlignment(ops: seq<Operand>, i: nat): nat {
    if ops == [] then 0
    else
      var rest := MaxAlignment(ops[..|ops| - 1], i);
      var o := ops[|ops| - 1];
      if i > 0 && -o.stackIndex == i && o.alignment > rest then o.alignment else rest
  }

  function MaxSize(ops: seq<Operand>, i: nat): nat {
    if ops == [] then 0
    else
      var rest := MaxSize(ops[..|ops| - 1], i);
      var o := ops[|ops| - 1];
      if i > 0 && -o.stackIndex == i && o.size > rest then o.size else rest
  }

  lemma {:induction false} OperandFits(ops: seq<Operand>, k: nat)
    requires k < |ops| && ops[k].stackIndex < 0
    ensures ops[k].size <= MaxSize(ops, -ops[k].stackIndex) && ops[k].alignment <= MaxAlignment(ops, -ops[k].stackIndex)
  {
    if k < |ops| - 1 { OperandFits(ops[..|ops| - 1], k); }
  }

  lemma {:induction false} AlignmentIsUsed(ops: seq<Operand>, count: nat, i: nat)
    requires Operands(ops, count)
    ensures MaxAlignment(ops, i) == 0 || PowerUpTo16(MaxAlignment(ops, i))
  {
    if ops != [] { AlignmentIsUsed(ops[..|ops| - 1], count, i); }
  }

  /** Collect the sizes and alignments of the slots. */
  method ProcessStackOffsets(ops: seq<Operand>, count: nat) returns (alignments: array<nat>, sizes: array<nat>)
    requires Operands(ops, count)
    ensures fresh(alignments) && fresh(sizes) && alignments.Length == sizes.Length == count + 1
    ensures forall i | 0 <= i <= count :: alignments[i] == MaxAlignment(ops, i) && sizes[i] == MaxSize(ops, i)
  {
    alignments, sizes := new nat[count + 1](_ => 0), new nat[count + 1](_ => 0);
    for k := 0 to |ops|
      invariant forall i | 0 <= i <= count ::
                alignments[i] == MaxAlignment(ops[..k], i) && sizes[i] == MaxSize(ops[..k], i)
    {
      assert ops[..k + 1][..k] == ops[..k];
      var o := ops[k];
      if o.stackIndex < 0 {
        if o.alignment > alignments[-o.stackIndex] { alignments[-o.stackIndex] := o.alignment; }
        if o.size > sizes[-o.stackIndex] { sizes[-o.stackIndex] := o.size; }
      }
    }
    assert ops[..|ops|] == ops;
  }

  // The layout

  function Total(order: seq<nat>, sizes: seq<nat>): nat
    requires forall k | 0 <= k < |order| :: order[k] < |sizes|
  {
    if order == [] then 0 else Total(order[..|order| - 1], sizes) + sizes[order[|order| - 1]]
  }

  ghost predicate Listed(order: seq<nat>, alignments: seq<nat>) {
    && (forall k | 0 <= k < |order| :: 0 < order[k] < |alignments| && PowerUpTo16(alignments[order[k]]))
    && (forall j, k | 0 <= j < k < |order| :: alignments[order[j]] >= alignments[order[k]])
    && (forall j, k | 0 <= j < k < |order| && alignments[order[j]] == alignments[order[k]] :: order[j] < order[k])
  }

  /** The slot at position `k` ends where the sizes up to it add up to. */
  ghost predicate EndsAt(order: seq<nat>, sizes: seq<nat>, offsets: seq<nat>, k: nat) {
    && k < |order| && order[k] < |offsets| == |sizes|
    && (forall j | 0 <= j < |order| :: order[j] < |sizes|) && offsets[order[k]] == Total(order[..k + 1], sizes)
  }

  /** The slots of `order` lie one after the other, from the base of the frame downwards: an offset is where a slot
      ends. */
  ghost predicate LaidOut(order: seq<nat>, alignments: seq<nat>, sizes: seq<nat>, offsets: seq<nat>) {
    && |alignments| == |sizes| == |offsets| && Listed(order, alignments)
    && forall k | 0 <= k < |order| :: EndsAt(order, sizes, offsets, k)
  }

  /** All slots are listed whose alignment is at least twice `wanted`, or is `wanted` if the number is below `upTo`. */
  ghost predicate ListedUpTo(order: seq<nat>, alignments: seq<nat>, wanted: nat, upTo: nat) {
    && (forall k | 0 <= k < |order| && order[k] < |alignments| ::
          alignments[order[k]] > wanted || (alignments[order[k]] == wanted && order[k] < upTo))
    && (forall i | 0 < i < |alignments| && (alignments[i] > wanted || (alignments[i] == wanted && i < upTo)) ::
        i in order)
  }

  lemma AppendSlot(order: seq<nat>, alignments: seq<nat>, sizes: seq<nat>, offsets: seq<nat>, wanted: nat, i: nat,
                   end: nat)
    requires LaidOut(order, alignments, sizes, offsets) && ListedUpTo(order, alignments, wanted, i)
    requires 0 < i < |alignments| && alignments[i] == wanted && PowerUpTo16(wanted)
      && end == Total(order, sizes) + sizes[i]
    ensures LaidOut(order + [i], alignments, sizes, offsets[i := end])
      && ListedUpTo(order + [i], alignments, wanted, i + 1)
    ensures Total(order + [i], sizes) == end
  {
    AppendListed(order, alignments, wanted, i);
    hide PowerUpTo16, Listed, ListedUpTo, Total;
    AppendTotal(order, sizes, i);
    var all, ends := order + [i], offsets[i := end];
    forall k | 0 <= k < |all| ensures EndsAt(all, sizes, ends, k) {
      SlotStays(order, sizes, offsets, i, end, k);
    }
  }

  lemma SlotStays(order: seq<nat>, sizes: seq<nat>, offsets: seq<nat>, i: nat, end: nat, k: nat)
    requires i < |sizes| == |offsets| && k <= |order|
      && forall j | 0 <= j < |order| :: order[j] < |sizes| && order[j] != i
    requires end == Total(order + [i], sizes) && (k < |order| ==> EndsAt(order, sizes, offsets, k))
    ensures EndsAt(order + [i], sizes, offsets[i := end], k)
  {
    hide Total;
    PrefixOfAppended(order, i, k);
    assert k < |order| ==> (order + [i])[k] == order[k];
    assert (order + [i])[|order|] == i;
  }

  lemma PrefixOfAppended(order: seq<nat>, i: nat, k: nat)
    requires k <= |order|
    ensures (order + [i])[..k + 1] == if k < |order| then order[..k + 1] else order + [i]
  {
  }

  lemma AppendTotal(order: seq<nat>, sizes: seq<nat>, i: nat)
    requires i < |sizes| && forall k | 0 <= k < |order| :: order[k] < |sizes|
    ensures Total(order + [i], sizes) == Total(order, sizes) + sizes[i]
  {
    assert (order + [i])[..|order|] == order;
  }

  lemma AppendListed(order: seq<nat>, alignments: seq<nat>, wanted: nat, i: nat)
    requires Listed(order, alignments) && ListedUpTo(order, alignments, wanted, i)
    requires 0 < i < |alignments| && alignments[i] == wanted && PowerUpTo16(wanted)
    ensures Listed(order + [i], alignments) && ListedUpTo(order + [i], alignments, wanted, i + 1)
    ensures forall k | 0 <= k < |order| :: 0 < order[k] < |alignments| && order[k] != i
    ensures forall k | 0 <= k <= |order| :: 0 < (order + [i])[k] < |alignments|
  {
    hide PowerUpTo16;
  }

  lemma NextNumber(order: seq<nat>, alignments: seq<nat>, wanted: nat, i: nat)
    requires ListedUpTo(order, alignments, wanted, i) && i < |alignments| && alignments[i] != wanted
    ensures ListedUpTo(order, alignments, wanted, i + 1)
  {
  }

  /** When all slots of one alignment are listed, the next smaller alignment is due; after 1 there is none. */
  lemma NextAlignment(order: seq<nat>, alignments: seq<nat>, wanted: nat)
    requires ListedUpTo(order, alignments, wanted, |alignments|) && PowerUpTo16(wanted)
    requires forall i | 0 <= i < |alignments| :: alignments[i] == 0 || PowerUpTo16(alignments[i])
    ensures ListedUpTo(order, alignments, wanted / 2, if wanted / 2 == 0 then 0 else 1)
  {
    forall i | 0 <= i < |alignments| ensures alignments[i] > wanted / 2 <==> alignments[i] >= wanted {}
  }

  /** Slots with the largest alignment come first, and slots of one alignment in the order of their numbers. */
  method LayOut(alignments: array<nat>, sizes: array<nat>) returns (offsets: array<nat>, total: nat,
                ghost order: seq<nat>)
    requires alignments.Length == sizes.Length > 0
    requires forall i | 0 <= i < alignments.Length :: alignments[i] == 0 || PowerUpTo16(alignments[i])
    ensures fresh(offsets) && LaidOut(order, alignments[..], sizes[..], offsets[..]) && total == Total(order, sizes[..])
    ensures forall i | 0 < i < alignments.Length && alignments[i] > 0 :: i in order
  {
    hide Total, LaidOut, ListedUpTo;
    offsets, total, order := new nat[alignments.Length](_ => 0), 0, [];
    var offset: nat := 0;
    var wanted: nat := 16;
    NothingListed(alignments[..], sizes[..], offsets[..]);
    while wanted > 0
      invariant wanted == 0 || PowerUpTo16(wanted)
      invariant Placed(order, alignments[..], sizes[..], offsets[..], total) && offset == total
      invariant ListedUpTo(order, alignments[..], wanted, if wanted == 0 then 0 else 1)
    {
      for i := 1 to alignments.Length
        invariant Placed(order, alignments[..], sizes[..], offsets[..], total) && offset == total
        invariant ListedUpTo(order, alignments[..], wanted, i)
      {
        if wanted == alignments[i] {
          OrderIsUsed(order, alignments[..], sizes[..], offsets[..]);
          AppendSlot(order, alignments[..], sizes[..], offsets[..], wanted, i, offset + sizes[i]);
          offset := offset + sizes[i];
          ghost var was := offsets[..];
          offsets[i] := offset;
          assert offsets[..] == was[i := offset];
          total := total + sizes[i];
          order := order + [i];
        } else {
          NextNumber(order, alignments[..], wanted, i);
        }
      }
      NextAlignment(order, alignments[..], wanted);
      wanted := wanted / 2;
    }
    AllListed(order, alignments[..]);
  }

  ghost predicate Placed(order: seq<nat>, alignments: seq<nat>, sizes: seq<nat>, offsets: seq<nat>, total: nat) {
    LaidOut(order, alignments, sizes, offsets) && total == Total(order, sizes)
  }

  lemma NothingListed(alignments: seq<nat>, sizes: seq<nat>, offsets: seq<nat>)
    requires |alignments| == |sizes| == |offsets|
    requires forall i | 0 <= i < |alignments| :: alignments[i] == 0 || PowerUpTo16(alignments[i])
    ensures Placed([], alignments, sizes, offsets, 0) && ListedUpTo([], alignments, 16, 1)
  {
    forall i | 0 <= i < |alignments| ensures alignments[i] <= 16 {}
  }

  lemma AllListed(order: seq<nat>, alignments: seq<nat>)
    requires ListedUpTo(order, alignments, 0, 0)
    ensures forall i | 0 < i < |alignments| && alignments[i] > 0 :: i in order
  {
  }

  lemma {:induction false} TotalGrows(order: seq<nat>, sizes: seq<nat>, n: nat)
    requires n <= |order| && forall k | 0 <= k < |order| :: order[k] < |sizes|
    ensures Total(order[..n], sizes) <= Total(order, sizes)
  {
    if n == |order| {
      assert order[..n] == order;
    } else {
      assert order[..|order| - 1][..n] == order[..n];
      TotalGrows(order[..|order| - 1], sizes, n);
    }
  }

  lemma PrefixOfPrefix(order: seq<nat>, n: nat, m: nat)
    requires m <= n <= |order|
    ensures order[..n][..m] == order[..m]
  {
  }

  /** A later slot begins where an earlier one has ended, or later. */
  lemma LaterSlots(order: seq<nat>, alignments: seq<nat>, sizes: seq<nat>, offsets: seq<nat>, j: nat, k: nat)
    requires LaidOut(order, alignments, sizes, offsets) && j < k < |order|
    ensures offsets[order[j]] + sizes[order[k]] <= offsets[order[k]]
  {
    hide Listed, Total;
    assert EndsAt(order, sizes, offsets, j) && EndsAt(order, sizes, offsets, k);
    PrefixOfPrefix(order, k, j + 1);
    TotalNext(order, sizes, k);
    TotalGrows(order[..k], sizes, j + 1);
  }

  lemma TotalNext(order: seq<nat>, sizes: seq<nat>, k: nat)
    requires k < |order| && forall j | 0 <= j < |order| :: order[j] < |sizes|
    ensures Total(order[..k + 1], sizes) == Total(order[..k], sizes) + sizes[order[k]]
  {
    PrefixOfPrefix(order, k + 1, k);
  }

  /** A slot takes up bytes offset - size to offset of the frame; no two slots share a byte. */
  lemma SlotsAreApart(order: seq<nat>, alignments: seq<nat>, sizes: seq<nat>, offsets: seq<nat>, i: nat, j: nat)
    requires LaidOut(order, alignments, sizes, offsets) && i in order && j in order && i != j
    ensures sizes[i] <= offsets[i] <= Total(order, sizes)
    ensures offsets[i] + sizes[j] <= offsets[j] || offsets[j] + sizes[i] <= offsets[i]
  {
    var m: nat :| m < |order| && order[m] == i;
    var n: nat :| n < |order| && order[n] == j;
    SlotIsInside(order, alignments, sizes, offsets, m);
    if m < n {
      LaterSlots(order, alignments, sizes, offsets, m, n);
    } else {
      LaterSlots(order, alignments, sizes, offsets, n, m);
    }
  }

  lemma SlotIsInside(order: seq<nat>, alignments: seq<nat>, sizes: seq<nat>, offsets: seq<nat>, k: nat)
    requires LaidOut(order, alignments, sizes, offsets) && k < |order|
    ensures sizes[order[k]] <= offsets[order[k]] <= Total(order, sizes)
    ensures offsets[order[k]] == sizes[order[k]] + if k == 0 then 0 else offsets[order[k - 1]]
  {
    hide Listed, Total;
    assert EndsAt(order, sizes, offsets, k) && (k > 0 ==> EndsAt(order, sizes, offsets, k - 1));
    TotalNext(order, sizes, k);
    TotalGrows(order, sizes, k + 1);
    NoneTotal(order, sizes);
  }

  lemma NoneTotal(order: seq<nat>, sizes: seq<nat>)
    ensures Total(order[..0], sizes) == 0
  {
  }

  lemma Rest2(q: nat, r: nat, x: nat)
    requires x == 2 * q + r && r < 2
    ensures x % 2 == r
  {
  }

  lemma Rest4(q: nat, r: nat, x: nat)
    requires x == 4 * q + r && r < 4
    ensures x % 4 == r
  {
  }

  lemma Rest8(q: nat, r: nat, x: nat)
    requires x == 8 * q + r && r < 8
    ensures x % 8 == r
  {
  }

  lemma Rest16(q: nat, r: nat, x: nat)
    requires x == 16 * q + r && r < 16
    ensures x % 16 == r
  {
  }

  lemma HalfOf4(x: nat)
    requires x % 4 == 0
    ensures x % 2 == 0
  {
    Rest2(2 * (x / 4), 0, x);
  }

  lemma HalfOf8(x: nat)
    requires x % 8 == 0
    ensures x % 4 == 0
  {
    Rest4(2 * (x / 8), 0, x);
  }

  lemma HalfOf16(x: nat)
    requires x % 16 == 0
    ensures x % 8 == 0
  {
    Rest8(2 * (x / 16), 0, x);
  }

  lemma {:induction false} Divides(x: nat, a: nat, b: nat)
    requires PowerUpTo16(a) && PowerUpTo16(b) && b <= a && x % a == 0
    ensures x % b == 0
    decreases a
  {
    if b != 1 && b < a {
      if a == 4 {
        HalfOf4(x);
      } else if a == 8 {
        HalfOf8(x);
        Divides(x, 4, b);
      } else {
        HalfOf16(x);
        Divides(x, 8, b);
      }
    }
  }

  lemma SumBy2(x: nat, y: nat)
    requires x % 2 == 0
    ensures (x + y) % 2 == y % 2
  {
    Rest2(x / 2 + y / 2, y % 2, x + y);
  }

  lemma SumBy4(x: nat, y: nat)
    requires x % 4 == 0
    ensures (x + y) % 4 == y % 4
  {
    Rest4(x / 4 + y / 4, y % 4, x + y);
  }

  lemma SumBy8(x: nat, y: nat)
    requires x % 8 == 0
    ensures (x + y) % 8 == y % 8
  {
    Rest8(x / 8 + y / 8, y % 8, x + y);
  }

  lemma SumBy16(x: nat, y: nat)
    requires x % 16 == 0
    ensures (x + y) % 16 == y % 16
  {
    Rest16(x / 16 + y / 16, y % 16, x + y);
  }

  lemma SumDivides(x: nat, y: nat, a: nat)
    requires PowerUpTo16(a) && x % a == 0
    ensures (x + y) % a == 0 <==> y % a == 0
  {
    if a == 2 {
      SumBy2(x, y);
    } else if a == 4 {
      SumBy4(x, y);
    } else if a == 8 {
      SumBy8(x, y);
    } else if a == 16 {
      SumBy16(x, y);
    }
  }

  /** The values of the listed slots, sizes or offsets, are multiples of the alignments of the slots. */
  ghost predicate Aligned(order: seq<nat>, alignments: seq<nat>, values: seq<nat>) {
    forall k | 0 <= k < |order| :: AlignedAt(order[k], alignments, values)
  }

  ghost predicate AlignedAt(i: nat, alignments: seq<nat>, values: seq<nat>) {
    i < |alignments| == |values| && alignments[i] > 0 && values[i] % alignments[i] == 0
  }

  /** Where a slot lies on its alignment, the next one does if and only if its size is a multiple of its alignment. */
  lemma NextSlot(order: seq<nat>, alignments: seq<nat>, sizes: seq<nat>, offsets: seq<nat>, k: nat)
    requires LaidOut(order, alignments, sizes, offsets) && k < |order|
    requires k > 0 ==> AlignedAt(order[k - 1], alignments, offsets)
    ensures AlignedAt(order[k], alignments, offsets) <==> AlignedAt(order[k], alignments, sizes)
  {
    hide PowerUpTo16, Total;
    SlotIsInside(order, alignments, sizes, offsets, k);
    if k > 0 {
      Divides(offsets[order[k - 1]], alignments[order[k - 1]], alignments[order[k]]);
      SumDivides(offsets[order[k - 1]], sizes[order[k]], alignments[order[k]]);
    }
  }

  lemma {:induction false} OffsetsAligned(order: seq<nat>, alignments: seq<nat>, sizes: seq<nat>, offsets: seq<nat>,
                                          n: nat)
    requires LaidOut(order, alignments, sizes, offsets) && n < |order| && Aligned(order, alignments, sizes)
    ensures AlignedAt(order[n], alignments, offsets)
  {
    hide LaidOut, AlignedAt;
    if n > 0 { OffsetsAligned(order, alignments, sizes, offsets, n - 1); }
    NextSlot(order, alignments, sizes, offsets, n);
  }

  /** Every slot lies on its alignment if and only if the size of every slot is a multiple of its alignment: no
      padding is ever inserted between slots. */
  lemma AlignedExactly(order: seq<nat>, alignments: seq<nat>, sizes: seq<nat>, offsets: seq<nat>)
    requires LaidOut(order, alignments, sizes, offsets)
    ensures Aligned(order, alignments, offsets) <==> Aligned(order, alignments, sizes)
  {
    hide LaidOut, AlignedAt;
    if Aligned(order, alignments, sizes) {
      forall k | 0 <= k < |order| ensures AlignedAt(order[k], alignments, offsets) {
        OffsetsAligned(order, alignments, sizes, offsets, k);
      }
    }
    if Aligned(order, alignments, offsets) {
      forall k | 0 <= k < |order| ensures AlignedAt(order[k], alignments, sizes) {
        NextSlot(order, alignments, sizes, offsets, k);
      }
    }
  }

  /** Two operands of different slots share no byte: an operand takes up bytes offset - size to offset of the frame. */
  predicate Apart(a: Operand, b: Operand, offsets: seq<nat>) {
    -|offsets| < a.stackIndex < 0 && -|offsets| < b.stackIndex < 0 && a.stackIndex != b.stackIndex ==>
      offsets[-a.stackIndex] + b.size <= offsets[-b.stackIndex] ||
          offsets[-b.stackIndex] + a.size <= offsets[-a.stackIndex]
  }

  /** An operand in the frame lies within its bytes. */
  predicate Inside(o: Operand, offsets: seq<nat>, stackSize: nat) {
    o.stackIndex < 0 ==> -o.stackIndex < |offsets| && o.size <= offsets[-o.stackIndex] <= stackSize
  }

  /** Slot `i` is used, and the value for it, its size or its offset, is no multiple of its alignment. */
  predicate Misfits(ops: seq<Operand>, i: nat, value: nat) {
    MaxAlignment(ops, i) > 0 && value % MaxAlignment(ops, i) != 0
  }

  ghost predicate SomeMisfit(ops: seq<Operand>, values: seq<nat>) {
    exists i: nat | 0 < i < |values| :: Misfits(ops, i, values[i])
  }

  function Sizes(ops: seq<Operand>, count: nat): seq<nat> {
    seq(count + 1, i requires i >= 0 => MaxSize(ops, i))
  }

  /** The whole layout. Operands of different slots share no byte, all operands lie within the frame, and the size of
      the frame is a whole number of pushes. All slots lie on their alignments exactly if the size of every slot is a
      multiple of its own. */
  method MakeStackOffsets(ops: seq<Operand>, count: nat) returns (offsets: array<nat>, stackSize: nat)
    requires Operands(ops, count)
    ensures offsets.Length == count + 1 && stackSize % 8 == 0
    ensures stackSize == 0 || exists i: nat :: i <= count && stackSize - 8 < offsets[i] <= stackSize
    ensures forall k | 0 <= k < |ops| :: Inside(ops[k], offsets[..], stackSize)
    ensures forall j, k | 0 <= j < |ops| && 0 <= k < |ops| :: Apart(ops[j], ops[k], offsets[..])
    ensures SomeMisfit(ops, offsets[..]) <==> SomeMisfit(ops, Sizes(ops, count))
  {
    hide LaidOut, Inside, Apart, Misfits, MaxAlignment, MaxSize, Total;
    var alignments, sizes := ProcessStackOffsets(ops, count);
    forall i | 0 <= i <= count
      ensures alignments[i] == 0 || PowerUpTo16(alignments[i])
    {
      AlignmentIsUsed(ops, count, i);
    }
    var total;
    ghost var order;
    offsets, total, order := LayOut(alignments, sizes);
    stackSize := (total + 7) / 8 * 8;
    RoundUp8(total);
    OrderIsUsed(order, alignments[..], sizes[..], offsets[..]);
    LastEndsFrame(order, alignments[..], sizes[..], offsets[..]);
    forall k | 0 <= k < |ops| ensures Inside(ops[k], offsets[..], stackSize) {
      OperandInside(ops, count, order, alignments[..], sizes[..], offsets[..], k);
      InsideMore(ops[k], offsets[..], total, stackSize);
    }
    forall j, k | 0 <= j < |ops| && 0 <= k < |ops| ensures Apart(ops[j], ops[k], offsets[..]) {
      OperandsApart(ops, count, order, alignments[..], sizes[..], offsets[..], j, k);
    }
    MisfitsExactly(ops, count, order, alignments[..], sizes[..], offsets[..]);
  }

  /** The last slot ends where the frame does, before that is rounded up. */
  lemma LastEndsFrame(order: seq<nat>, alignments: seq<nat>, sizes: seq<nat>, offsets: seq<nat>)
    requires LaidOut(order, alignments, sizes, offsets) && forall k | 0 <= k < |order| :: order[k] < |sizes|
    ensures Total(order, sizes) == 0 || exists i: nat :: i < |offsets| && offsets[i] == Total(order, sizes)
  {
    hide Listed;
    if order != [] {
      var last: nat := |order| - 1;
      assert EndsAt(order, sizes, offsets, last);
      assert order[..last + 1] == order;
      assert offsets[order[last]] == Total(order, sizes);
    }
  }

  lemma RoundUp8(total: nat)
    ensures total <= (total + 7) / 8 * 8 < total + 8 && (total + 7) / 8 * 8 % 8 == 0
  {
  }

  lemma InsideMore(o: Operand, offsets: seq<nat>, total: nat, size: nat)
    requires Inside(o, offsets, total) && total <= size
    ensures Inside(o, offsets, size)
  {
  }

  /** What the layout was made from. */
  ghost predicate LaidOutFor(ops: seq<Operand>, count: nat, order: seq<nat>, alignments: seq<nat>, sizes: seq<nat>,
                             offsets: seq<nat>) {
    && Operands(ops, count) && LaidOut(order, alignments, sizes, offsets) &&
        |sizes| == count + 1 == |alignments| == |offsets|
    && (forall i | 0 <= i <= count :: alignments[i] == MaxAlignment(ops, i) && sizes[i] == MaxSize(ops, i))
    && (forall i | 0 < i <= count && alignments[i] > 0 :: i in order)
    && (forall k | 0 <= k < |order| :: order[k] <= count)
  }

  lemma OperandSlot(ops: seq<Operand>, count: nat, order: seq<nat>, alignments: seq<nat>, sizes: seq<nat>,
                    offsets: seq<nat>, k: nat)
    requires LaidOutFor(ops, count, order, alignments, sizes, offsets) && k < |ops| && ops[k].stackIndex < 0
    ensures -ops[k].stackIndex <= count && -ops[k].stackIndex in order && ops[k].size <= sizes[-ops[k].stackIndex]
  {
    hide LaidOut, MaxAlignment, MaxSize;
    OperandFits(ops, k);
  }

  lemma OperandInside(ops: seq<Operand>, count: nat, order: seq<nat>, alignments: seq<nat>, sizes: seq<nat>,
                      offsets: seq<nat>, k: nat)
    requires LaidOutFor(ops, count, order, alignments, sizes, offsets) && k < |ops|
    ensures Inside(ops[k], offsets, Total(order, sizes))
  {
    hide LaidOut, MaxAlignment, MaxSize;
    if ops[k].stackIndex < 0 {
      OperandSlot(ops, count, order, alignments, sizes, offsets, k);
      SlotInside(order, alignments, sizes, offsets, -ops[k].stackIndex);
    }
  }

  lemma OperandsApart(ops: seq<Operand>, count: nat, order: seq<nat>, alignments: seq<nat>, sizes: seq<nat>,
                      offsets: seq<nat>, j: nat, k: nat)
    requires LaidOutFor(ops, count, order, alignments, sizes, offsets) && j < |ops| && k < |ops|
    ensures Apart(ops[j], ops[k], offsets)
  {
    hide LaidOut, MaxAlignment, MaxSize;
    if ops[j].stackIndex < 0 && ops[k].stackIndex < 0 && ops[j].stackIndex != ops[k].stackIndex {
      OperandSlot(ops, count, order, alignments, sizes, offsets, j);
      OperandSlot(ops, count, order, alignments, sizes, offsets, k);
      SlotsAreApart(order, alignments, sizes, offsets, -ops[j].stackIndex, -ops[k].stackIndex);
    }
  }

  /** A misfit among the listed slots is a misfit among the used slots. */
  lemma MisfitIsListed(ops: seq<Operand>, count: nat, order: seq<nat>, alignments: seq<nat>, sizes: seq<nat>,
                       offsets: seq<nat>, values: seq<nat>)
    requires LaidOutFor(ops, count, order, alignments, sizes, offsets) && |values| == count + 1
    ensures Aligned(order, alignments, values) <==> !SomeMisfit(ops, values)
  {
    hide MaxAlignment, MaxSize, Total;
    if Aligned(order, alignments, values) {
      forall i: nat | 0 < i < |values| ensures !Misfits(ops, i, values[i]) {
        if alignments[i] > 0 {
          var k: nat :| k < |order| && order[k] == i;
          assert AlignedAt(order[k], alignments, values);
        }
      }
    }
    if !SomeMisfit(ops, values) {
      forall k | 0 <= k < |order| ensures AlignedAt(order[k], alignments, values) {
        assert !Misfits(ops, order[k], values[order[k]]);
      }
    }
  }

  lemma MisfitsExactly(ops: seq<Operand>, count: nat, order: seq<nat>, alignments: seq<nat>, sizes: seq<nat>,
                       offsets: seq<nat>)
    requires LaidOutFor(ops, count, order, alignments, sizes, offsets)
    ensures SomeMisfit(ops, offsets[..]) <==> SomeMisfit(ops, Sizes(ops, count))
  {
    hide LaidOut, Misfits, Aligned, MaxAlignment, MaxSize;
    MisfitIsListed(ops, count, order, alignments, sizes, offsets, offsets);
    MisfitIsListed(ops, count, order, alignments, sizes, offsets, sizes);
    AlignedExactly(order, alignments, sizes, offsets);
    assert sizes == Sizes(ops, count);
  }

  lemma SlotInside(order: seq<nat>, alignments: seq<nat>, sizes: seq<nat>, offsets: seq<nat>, i: nat)
    requires LaidOut(order, alignments, sizes, offsets) && i in order
    ensures i < |sizes| == |offsets| && sizes[i] <= offsets[i] <= Total(order, sizes)
  {
    var k: nat :| k < |order| && order[k] == i;
    SlotIsInside(order, alignments, sizes, offsets, k);
  }

  lemma OrderIsUsed(order: seq<nat>, alignments: seq<nat>, sizes: seq<nat>, offsets: seq<nat>)
    requires LaidOut(order, alignments, sizes, offsets)
    ensures |alignments| == |sizes| == |offsets|
    ensures forall k | 0 <= k < |order| :: order[k] < |alignments|
  {
  }

  /** A slot that is used once as 12 bytes on a 4-byte boundary and once as 8 bytes on an 8-byte boundary gets the
      larger of each, 12 bytes on an 8-byte boundary, and misfits. */
  lemma MixedUseMisfits()
    ensures var ops := [Operand(-1, 12, 4), Operand(-1, 8, 8)]; Operands(ops, 1) && Misfits(ops, 1, MaxSize(ops, 1))
  {
    var ops, one := [Operand(-1, 12, 4), Operand(-1, 8, 8)], [Operand(-1, 12, 4)];
    assert ops[..1] == one && one[..0] == [] && -one[0].stackIndex == 1;
    assert MaxSize(one, 1) == 12 && MaxAlignment(one, 1) == 4;
    assert MaxSize(ops, 1) == 12 && MaxAlignment(ops, 1) == 8;
  }
}
